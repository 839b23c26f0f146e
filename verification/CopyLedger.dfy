/** What a copy run leaves behind, told from its turns. Main results: `CountersAreTallies` -
    written and failed are counts of what happened - `PagesChangeByPublishing` and
    `LockIsLetGo`.
 */
module CopyLedger {
  import opened Outcomes
  import opened CopyLock

  // -------------------------------------------------------------------- counters

  /** pid's page was moved into place and found there. */
  predicate Landed(w: World, t: Turn, pid: nat) {
    t.pid == pid && t.act == Publish(true) && pid in w.procs
    && var p := w.procs[pid]; p.pen.Some? && p.pen.value.i < |p.want| && p.want[p.pen.value.i] + ".new" in w.names
  }

  /** pid's page could not be made, written, moved or found. */
  predicate Missed(w: World, t: Turn, pid: nat) {
    t.pid == pid && (t.act.Miss? || t.act.Spoil? || (t.act.Publish? && !Landed(w, t, pid)))
  }

  function LandedBy(ws: seq<World>, turns: seq<Turn>, n: nat, pid: nat): nat
    requires n <= |turns| < |ws|
  {
    if n == 0 then 0 else LandedBy(ws, turns, n - 1, pid) + if Landed(ws[n - 1], turns[n - 1], pid) then 1 else 0
  }

  function MissedBy(ws: seq<World>, turns: seq<Turn>, n: nat, pid: nat): nat
    requires n <= |turns| < |ws|
  {
    if n == 0 then 0 else MissedBy(ws, turns, n - 1, pid) + if Missed(ws[n - 1], turns[n - 1], pid) then 1 else 0
  }

  lemma CountStep(w: World, t: Turn, v: World, pid: nat)
    requires StepAt(w, t, v)
    ensures pid in w.procs ==>
              pid in v.procs && v.procs[pid].wrote == w.procs[pid].wrote + (if Landed(w, t, pid) then 1 else 0)
              && v.procs[pid].failed == w.procs[pid].failed + if Missed(w, t, pid) then 1 else 0
    ensures pid !in w.procs ==>
              !Landed(w, t, pid) && !Missed(w, t, pid) && (pid in v.procs ==> v.procs[pid].wrote == v.procs[pid].failed == 0)
  {
    if t.act.Miss? || t.act.Spoil? || t.act.Publish? { TallyStep(w, t, v, pid); } else { QuietTally(w, t, v, pid); }
  }

  lemma TallyStep(w: World, t: Turn, v: World, pid: nat)
    requires StepAt(w, t, v) && (t.act.Miss? || t.act.Spoil? || t.act.Publish?)
    ensures pid in w.procs ==>
              pid in v.procs && v.procs[pid].wrote == w.procs[pid].wrote + (if Landed(w, t, pid) then 1 else 0)
              && v.procs[pid].failed == w.procs[pid].failed + if Missed(w, t, pid) then 1 else 0
    ensures pid !in w.procs ==> !Landed(w, t, pid) && !Missed(w, t, pid) && pid !in v.procs
  {
    hide IsPage, Overwritten, AgeOf, Width, Took;
  }

  lemma QuietTally(w: World, t: Turn, v: World, pid: nat)
    requires StepAt(w, t, v) && !t.act.Miss? && !t.act.Spoil? && !t.act.Publish?
    ensures !Landed(w, t, pid) && !Missed(w, t, pid)
    ensures pid in w.procs ==> pid in v.procs && v.procs[pid].wrote == w.procs[pid].wrote && v.procs[pid].failed == w.procs[pid].failed
    ensures pid !in w.procs && pid in v.procs ==> v.procs[pid].wrote == v.procs[pid].failed == 0
  {
    hide IsPage, Overwritten, AgeOf, Width, Carries, Counted;
  }

  /** COUNTERS ARE TALLIES: written is the number of pages moved into place and found
      there, failed the number of the others that were dealt with. */
  lemma {:induction false} CountersAreTallies(ws: seq<World>, turns: seq<Turn>, n: nat, pid: nat)
    requires Run(ws, turns) && ws[0].procs == map[] && n < |ws|
    ensures pid in ws[n].procs ==>
              ws[n].procs[pid].wrote == LandedBy(ws, turns, n, pid) && ws[n].procs[pid].failed == MissedBy(ws, turns, n, pid)
    ensures pid !in ws[n].procs ==> LandedBy(ws, turns, n, pid) == 0 && MissedBy(ws, turns, n, pid) == 0
  {
    hide StepAt, Landed, Missed;
    if n > 0 {
      CountersAreTallies(ws, turns, n - 1, pid);
      assert StepAt(ws[n - 1], turns[n - 1], ws[n]);
      CountStep(ws[n - 1], turns[n - 1], ws[n], pid);
    }
  }

  lemma LanesStep(w: World, t: Turn, v: World, pid: nat)
    requires StepAt(w, t, v) && pid in w.procs
    ensures pid in v.procs && v.procs[pid].want == w.procs[pid].want && |v.procs[pid].lanes| == |w.procs[pid].lanes|
  {
    hide IsPage, Overwritten, AgeOf, Width, Carries, Counted, Took;
    if t.pid == pid && t.act.Take? { LanesKept(w.procs[pid], t.act.lane); }
    if t.pid == pid && t.act.Miss? {
      CarriesLane(w.procs[pid], t.act.lane);
      LanesKept(w.procs[pid], t.act.lane);
    }
    if t.pid == pid && (t.act.Spoil? || t.act.Publish?) { LanesKept(w.procs[pid], w.procs[pid].pen.value.lane); }
  }

  lemma CarriesLane(p: Proc, lane: nat)
    requires Carries(p, lane)
    ensures lane < |p.lanes|
  {
  }

  lemma LanesKept(p: Proc, lane: nat)
    requires lane < |p.lanes|
    ensures Took(p, lane).want == p.want && |Took(p, lane).lanes| == |p.lanes|
    ensures forall good :: Counted(p, lane, good).want == p.want && |Counted(p, lane, good).lanes| == |p.lanes|
  {
  }

  /** A run keeps its targets, and as many lanes as it was given but no more than targets. */
  lemma {:induction false} LanesAre(ws: seq<World>, turns: seq<Turn>, k: nat, n: nat)
    requires Run(ws, turns) && k < n < |ws| && turns[k].act.Start?
    ensures var width, want := turns[k].act.width, turns[k].act.want;
            && turns[k].pid in ws[n].procs && ws[n].procs[turns[k].pid].want == want
            && |ws[n].procs[turns[k].pid].lanes| == if width < 0 then 0 else if width > |want| then |want| else width
  {
    hide StepAt;
    assert StepAt(ws[n - 1], turns[n - 1], ws[n]);
    if n == k + 1 {
      StartLanes(ws[k], turns[k], ws[n]);
    } else {
      LanesAre(ws, turns, k, n - 1);
      LanesStep(ws[n - 1], turns[n - 1], ws[n], turns[k].pid);
    }
  }

  lemma StartLanes(w: World, t: Turn, v: World)
    requires StepAt(w, t, v) && t.act.Start?
    ensures t.pid in v.procs && v.procs[t.pid].want == t.act.want
    ensures |v.procs[t.pid].lanes| == if t.act.width < 0 then 0 else if t.act.width > |t.act.want| then |t.act.want| else t.act.width
  {
  }

  /** ALL IS COUNTED when a run ends, exactly if it was given a lane or had nothing to do. */
  lemma FinishedRunCounts(ws: seq<World>, turns: seq<Turn>, k: nat, n: nat)
    requires Run(ws, turns) && ws[0].procs == map[] && k < n < |turns| && turns[k].act.Start?
    requires turns[n] == Turn(turns[k].pid, Finish)
    ensures LandedBy(ws, turns, n, turns[k].pid) + MissedBy(ws, turns, n, turns[k].pid) == |turns[k].act.want|
            <==> turns[k].act.width > 0 || turns[k].act.want == []
  {
    hide StepAt, LandedBy, MissedBy;
    LanesAre(ws, turns, k, n);
    CountersAreTallies(ws, turns, n, turns[k].pid);
    assert StepAt(ws[n], turns[n], ws[n + 1]);
    FinishEnabled(ws[n], turns[n], ws[n + 1]);
    EveryTargetIsCounted(ws, turns, n, turns[k].pid);
  }

  lemma FinishEnabled(w: World, t: Turn, v: World)
    requires StepAt(w, t, v)
    ensures Enabled(w, t.pid, t.act)
  {
  }

  // ------------------------------------------------------------------------ pages

  /** What a reader of a path gets. */
  function Served(w: World, file: string): Option<string> {
    if file in w.names && w.names[file] in w.text then Some(w.text[w.names[file]]) else None
  }

  /** pid moves the page at file into place. */
  predicate Publishes(w: World, t: Turn, file: string) {
    t.act.Publish? && t.pid in w.procs
    && var p := w.procs[t.pid]; p.pen.Some? && p.pen.value.i < |p.want| && p.want[p.pen.value.i] == file
  }

  lemma {:induction false} DiskThroughout(ws: seq<World>, turns: seq<Turn>, n: nat)
    requires Run(ws, turns) && n < |ws| && ws[0].procs == map[] && Separate(ws[0]) && PagesWhole(ws[0])
    requires forall i :: 0 <= i < |turns| ==> CleanBreak(ws[i], turns[i])
    ensures Disk(ws[n])
  {
    hide StepAt, CleanBreak;
    StartsClean(ws[0]);
    RunDisk(ws, turns, n);
  }

  lemma StartsClean(w: World)
    requires w.procs == map[] && Separate(w) && PagesWhole(w)
    ensures Disk(w)
  {
  }

  lemma OpenServes(w: World, t: Turn, v: World, file: string)
    requires Disk(w) && StepAt(w, t, v) && t.act.Open? && IsPage(file)
    ensures Served(v, file) == Served(w, file)
  {
    hide PagesWhole, Locked, PenFits;
    var p := w.procs[t.pid];
    AsideIsNoPage(file, p.want[p.lanes[t.act.lane].i]);
    var aside := Aside(p.want[p.lanes[t.act.lane].i]);
    if file in w.names && aside in w.names { assert w.names[file] != w.names[aside]; }
  }

  lemma WriteServes(w: World, t: Turn, v: World, file: string)
    requires Disk(w) && StepAt(w, t, v) && t.act.Write? && IsPage(file)
    ensures Served(v, file) == Served(w, file)
  {
    hide PagesWhole, Locked, Overwritten;
    var p := w.procs[t.pid];
    assert PenFits(w, p);
    var aside := Aside(p.want[p.pen.value.i]);
    AsideIsNoPage(file, p.want[p.pen.value.i]);
    if file in w.names { assert w.names[file] != w.names[aside]; }
  }

  lemma PublishServes(w: World, t: Turn, v: World, file: string)
    requires Disk(w) && StepAt(w, t, v) && t.act.Publish? && IsPage(file)
    ensures Publishes(w, t, file) ==> Served(v, file) == Some(w.procs[t.pid].pen.value.doc)
    ensures !Publishes(w, t, file) ==> Served(v, file) == Served(w, file)
  {
    hide PagesWhole, Locked;
    var p := w.procs[t.pid];
    assert PenFits(w, p);
    var n := p.pen.value;
    assert n.doc[..n.at] == n.doc;
    AsideIsNoPage(file, p.want[n.i]);
  }

  lemma QuietServes(w: World, t: Turn, v: World, file: string)
    requires Disk(w) && StepAt(w, t, v) && !t.act.Open? && !t.act.Write? && !t.act.Publish?
    ensures Served(v, file) == Served(w, file)
  {
    hide StepAt;
    QuietNext(w, t, v);
  }

  /** PAGES CHANGE BY PUBLISHING ALONE, while no break finds a run in progress: a turn
      that publishes a page leaves it holding the document then written, and every other
      turn leaves it as it was. */
  lemma PagesChangeByPublishing(ws: seq<World>, turns: seq<Turn>, n: nat, file: string)
    requires Run(ws, turns) && n < |turns| && ws[0].procs == map[] && Separate(ws[0]) && PagesWhole(ws[0])
    requires forall i :: 0 <= i < |turns| ==> CleanBreak(ws[i], turns[i])
    requires IsPage(file)
    ensures Publishes(ws[n], turns[n], file) ==>
              && Served(ws[n + 1], file) == Some(ws[n].procs[turns[n].pid].pen.value.doc)
              && (Landed(ws[n], turns[n], turns[n].pid) <==> turns[n].act.seen)
    ensures !Publishes(ws[n], turns[n], file) ==> Served(ws[n + 1], file) == Served(ws[n], file)
  {
    hide StepAt, Served, Disk, CleanBreak, Separate, PagesWhole, IsPage;
    DiskThroughout(ws, turns, n);
    var w, t, v := ws[n], turns[n], ws[n + 1];
    assert StepAt(w, t, v);
    if t.act.Open? {
      OpenServes(w, t, v, file);
    } else if t.act.Write? {
      WriteServes(w, t, v, file);
    } else if t.act.Publish? {
      PublishServes(w, t, v, file);
      if Publishes(w, t, file) { AsideIsThere(w, t.pid); }
    } else {
      QuietServes(w, t, v, file);
    }
  }

  lemma AsideIsThere(w: World, pid: nat)
    requires Disk(w) && pid in w.procs && w.procs[pid].pen.Some?
    ensures var p := w.procs[pid]; p.pen.value.i < |p.want| && p.want[p.pen.value.i] + ".new" in w.names
  {
    assert PenFits(w, w.procs[pid]);
  }

  // --------------------------------------------------------------------- the lock

  /** The lock file is there exactly while somebody runs. */
  ghost predicate LockTells(w: World) { w.lock.Some? <==> exists p :: Runs(w, p) }

  lemma LetGoStep(w: World, t: Turn, v: World)
    requires StepAt(w, t, v) && LockTells(w) && Locked(w) && Locked(v) && !t.act.Kill?
    ensures LockTells(v)
  {
    hide IsPage, Overwritten, AgeOf, Width;
    OthersStay(w, t, v);
    if v.lock.Some? {
      if w.lock.Some? {
        var p :| Runs(w, p);
        KeepsRunning(w, t, v, p);
      } else {
        assert Runs(v, t.pid);
      }
    }
  }

  lemma KeepsRunning(w: World, t: Turn, v: World, p: nat)
    requires StepAt(w, t, v) && Runs(w, p) && v.lock.Some? && !t.act.Kill?
    requires Locked(w)
    ensures Runs(v, p) || Runs(v, t.pid)
  {
    hide IsPage, Overwritten, AgeOf, Width;
  }

  /** THE LOCK IS LET GO: if nobody is killed and no break finds a run in progress, the
      lock file is there exactly while somebody runs. */
  lemma {:induction false} LockIsLetGo(ws: seq<World>, turns: seq<Turn>, n: nat)
    requires Run(ws, turns) && n < |ws| && ws[0].procs == map[] && ws[0].lock.None?
    requires forall i :: 0 <= i < |turns| ==> CleanBreak(ws[i], turns[i]) && !turns[i].act.Kill?
    ensures LockTells(ws[n])
  {
    hide StepAt, CleanBreak, LockTells, Locked;
    if n == 0 {
      NobodyYet(ws[0]);
    } else {
      LockIsLetGo(ws, turns, n - 1);
      NobodyYet(ws[0]);
      RunLocked(ws, turns, n - 1);
      RunLocked(ws, turns, n);
      assert StepAt(ws[n - 1], turns[n - 1], ws[n]);
      LetGoStep(ws[n - 1], turns[n - 1], ws[n]);
    }
  }

  lemma NobodyYet(w: World)
    requires w.procs == map[] && w.lock.None?
    ensures LockTells(w) && Locked(w)
  {
  }

  /** A process that looks gives up exactly if the lock is there and its age rounds to a
      second from zero to below twenty minutes; otherwise it goes on to break the lock. */
  lemma LookIff(w: World, pid: nat)
    requires Enabled(w, pid, LookAge)
    ensures pid in Next(w, pid, LookAge).procs
    ensures var phase := Next(w, pid, LookAge).procs[pid].phase;
            && (phase == Left <==> w.lock.Some? && -500 <= w.now - w.lock.value.born < 1199500)
            && (phase == Left || phase == Breaking)
  {
  }
}
