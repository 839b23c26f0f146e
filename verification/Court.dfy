/** The part of the court realm that a seed run meets: claims numbered in the
    order they open, stake held per actor and side, the gates that refuse a
    position, an answer, a settlement, a dispute or a closing, and the folders
    that carried headings become.
 */
module Court {
  import opened Outcomes

  const DAY := 86_400
  const SETTLE_SECS := 72 * 3600
  const DEAD_SECS := 12 * 7 * DAY
  const MAX_FOLDERS := 100
  const MAX_FOLDER_DEPTH := 4
  const MAX_FOLDER_ITEMS := 200

  datatype Side = Yes | No

  /** One transaction of a seed run. Claims and folders are named by number. */
  datatype Step =
    | AdvanceClock(secs: int)
    | AdvanceHeight(blocks: int)
    | OpenClaim(author: string, heading: Option<string>)
    | FileInto(folder: int, cid: int)
    | Stake(who: string, cid: int, side: Side, amount: int)
    | Unstake(who: string, cid: int, side: Side, amount: int)
    | Answer(who: string, cid: int, verdict: Side)
    | Settle(cid: int)
    | Dispute(who: string, cid: int)
    | CloseDead(cid: int)
    | Carry(cid: int)
    | MoveFolder(folder: int, parent: int)

  datatype ClaimState = ClaimState(
    author: string, heading: Option<string>, openedAt: int, answer: Option<Side>, answerer: string, answeredAt: int,
    settled: bool, disputed: bool, disputer: string, closed: bool, held: map<(string, Side), int>)

  datatype Folder = Folder(name: string, parent: int, born: int, items: seq<int>)

  datatype Chain = Chain(now: int, height: int, claims: seq<ClaimState>, folders: seq<Folder>)

  function Held(held: map<(string, Side), int>, k: (string, Side)): int {
    if k in held then held[k] else 0
  }

  function Fresh(author: string, heading: Option<string>, now: int): ClaimState {
    ClaimState(author, heading, now, None, "", 0, false, false, "", false, map[])
  }

  /** One transaction against one claim; None is the realm's panic. Note that
      Unstake asks nothing about `closed`: a dead claim's stake may leave. */
  function ExecOnClaim(cs: ClaimState, now: int, s: Step): Option<ClaimState> {
    match s
    case Stake(who, _, side, amount) =>
      if amount <= 0 || cs.closed || cs.answer.Some? then None
      else Some(cs.(held := cs.held[(who, side) := Held(cs.held, (who, side)) + amount]))
    case Unstake(who, _, side, amount) =>
      if amount <= 0 || cs.answer.Some? || Held(cs.held, (who, side)) < amount then None
      else Some(cs.(held := cs.held[(who, side) := Held(cs.held, (who, side)) - amount]))
    case Answer(who, _, verdict) =>
      if cs.closed || cs.answer.Some? || now >= cs.openedAt + DEAD_SECS then None
      else Some(cs.(answer := Some(verdict), answerer := who, answeredAt := now))
    case Settle(_) =>
      if cs.answer.None? || cs.disputed || cs.settled || now < cs.answeredAt + SETTLE_SECS then None
      else Some(cs.(settled := true))
    case Dispute(who, _) =>
      if cs.answer.None? || who == cs.answerer || cs.disputed || cs.settled
         || now >= cs.answeredAt + SETTLE_SECS then None
      else Some(cs.(disputed := true, disputer := who))
    case CloseDead(_) =>
      if cs.closed || cs.answer.Some? || now < cs.openedAt + DEAD_SECS then None
      else Some(cs.(closed := true))
    case _ => None
  }

  /** A claim's heading becomes a folder once, on a final YES, under a name no
      folder has. */
  predicate CanCarry(ch: Chain, cid: int) {
    && 1 <= cid <= |ch.claims|
    && var cs := ch.claims[cid - 1];
    && cs.heading.Some? && 1 <= |cs.heading.value| <= 200
    && cs.settled && cs.answer == Some(Yes)
    && |ch.folders| < MAX_FOLDERS
    && forall f :: 0 <= f < |ch.folders| ==> ch.folders[f].born != cid && ch.folders[f].name != cs.heading.value
  }

  /** Headings from a folder up to its root, both counted. */
  function DepthOf(fs: seq<Folder>, id: int, fuel: nat): nat
    decreases fuel
  {
    if fuel == 0 || !(1 <= id <= |fs|) then 0 else 1 + DepthOf(fs, fs[id - 1].parent, fuel - 1)
  }

  /** Height of the subtree under a folder, over the children numbered from k. */
  function HeightOf(fs: seq<Folder>, id: int, k: nat, fuel: nat): nat
    decreases fuel, |fs| - k
  {
    if fuel == 0 || k >= |fs| then 1
    else
      var rest := HeightOf(fs, id, k + 1, fuel);
      if fs[k].parent != id then rest
      else
        var h := 1 + HeightOf(fs, k + 1, 0, fuel - 1);
        if h > rest then h else rest
  }

  predicate Above(fs: seq<Folder>, id: int, low: int, fuel: nat)
    decreases fuel
  {
    fuel > 0 && 1 <= low <= |fs| && (low == id || Above(fs, id, fs[low - 1].parent, fuel - 1))
  }

  /** The realm bounds its walks over parents by the folder cap: `fuel` steps. */
  predicate CanNest(fs: seq<Folder>, id: int, parent: int, fuel: nat) {
    parent == 0
    || (&& parent != id && 1 <= parent <= |fs| && !Above(fs, id, parent, fuel)
        && DepthOf(fs, parent, fuel) + HeightOf(fs, id, 0, fuel) <= MAX_FOLDER_DEPTH)
  }

  function Exec(ch: Chain, s: Step): Option<Chain> {
    match s
    case AdvanceClock(secs) => if secs <= 0 then None else Some(ch.(now := ch.now + secs))
    case AdvanceHeight(blocks) => if blocks <= 0 then None else Some(ch.(height := ch.height + blocks))
    case OpenClaim(author, heading) => Some(ch.(claims := ch.claims + [Fresh(author, heading, ch.now)]))
    case FileInto(folder, cid) =>
      if !(1 <= cid <= |ch.claims|) || !(1 <= folder <= |ch.folders|) then None
      else
        var f := ch.folders[folder - 1];
        if cid in f.items then Some(ch)
        else if |f.items| >= MAX_FOLDER_ITEMS then None
        else Some(ch.(folders := ch.folders[folder - 1 := f.(items := f.items + [cid])]))
    case Carry(cid) =>
      if !CanCarry(ch, cid) then None
      else Some(ch.(folders := ch.folders + [Folder(ch.claims[cid - 1].heading.value, 0, cid, [])]))
    case MoveFolder(folder, parent) =>
      if !(1 <= folder <= |ch.folders|) || !CanNest(ch.folders, folder, parent, MAX_FOLDERS + 1) then None
      else Some(ch.(folders := ch.folders[folder - 1 := ch.folders[folder - 1].(parent := parent)]))
    case _ =>
      if !(1 <= s.cid <= |ch.claims|) then None
      else
        match ExecOnClaim(ch.claims[s.cid - 1], ch.now, s)
        case None => None
        case Some(cs) => Some(ch.(claims := ch.claims[s.cid - 1 := cs]))
  }

  /** A whole log; one refused transaction refuses the run. */
  function Run(ch: Chain, log: seq<Step>): Option<Chain>
    decreases |log|
  {
    if log == [] then Some(ch)
    else
      match Exec(ch, log[0])
      case None => None
      case Some(next) => Run(next, log[1..])
  }

  function RunOnClaim(cs: ClaimState, now: int, log: seq<Step>): Option<ClaimState>
    decreases |log|
  {
    if log == [] then Some(cs)
    else
      match ExecOnClaim(cs, now, log[0])
      case None => None
      case Some(next) => RunOnClaim(next, now, log[1..])
  }

  lemma {:induction false} RunAppend(ch: Chain, a: seq<Step>, b: seq<Step>)
    ensures Run(ch, a + b) == if Run(ch, a).None? then None else Run(Run(ch, a).value, b)
    decreases |a|
  {
    if a == [] {
      assert a + b == b;
    } else {
      assert (a + b)[0] == a[0] && (a + b)[1..] == a[1..] + b;
      var r := Exec(ch, a[0]);
      if r.Some? { RunAppend(r.value, a[1..], b); }
    }
  }

  predicate OnClaim(s: Step, cid: int) {
    (s.Stake? || s.Unstake? || s.Answer? || s.Settle? || s.Dispute? || s.CloseDead?) && s.cid == cid
  }

  /** Steps that all address one claim move that claim alone. */
  lemma {:induction false} RunOnOneClaim(ch: Chain, cid: int, log: seq<Step>)
    requires 1 <= cid <= |ch.claims|
    requires forall i :: 0 <= i < |log| ==> OnClaim(log[i], cid)
    ensures Run(ch, log) ==
            match RunOnClaim(ch.claims[cid - 1], ch.now, log)
            case None => None
            case Some(cs) => Some(ch.(claims := ch.claims[cid - 1 := cs]))
    decreases |log|
  {
    if log != [] {
      assert OnClaim(log[0], cid);
      var r := ExecOnClaim(ch.claims[cid - 1], ch.now, log[0]);
      if r.Some? {
        var next := ch.(claims := ch.claims[cid - 1 := r.value]);
        assert Exec(ch, log[0]) == Some(next);
        RunOnOneClaim(next, cid, log[1..]);
        var q := RunOnClaim(r.value, ch.now, log[1..]);
        if q.Some? {
          assert next.claims[cid - 1 := q.value] == ch.claims[cid - 1 := q.value];
        }
      }
    } else {
      assert ch.claims[cid - 1 := ch.claims[cid - 1]] == ch.claims;
    }
  }
}
