# Verified models of the repository's tooling

Models, in Dafny 4.11, of the programs this repository builds its demonstration court with,
renders it with and guards itself with. Each program is modelled in the form it has: loops over
a step log, dictionaries, a character buffer or a canvas are methods over fields, sequences and
arrays, proved against functions whose own properties are then proved; recursive and pure parts
are functions. `dafny verify dfyconfig.toml` checks everything.

## The seed of the demonstration court

`scenarios/covid_demo.py` turns a table of claims into some six hundred transactions that a chain
replays inside its genesis, where one refusal means a node that cannot start.

* `Docket`, `Sorting` - the table; the guards on positions; numbering; the merged event list.
* `Court`, `CourtKeeps` - a ghost court with the gates of the realm (`realm/r/kourtv2/`: `stake.gno`,
  `answer.gno`, `session.gno`, `dispute.gno`, `claim.gno`, `folders.gno`, `governedset.gno`,
  `clock.gno`): sequential numbers, stake per actor and side, answered, settled and closed
  claims, folders, their nesting and their cap of 200 claims. Whatever log it accepts, its stakes,
  verdicts and folders stay sound.
* `Replay`, `Arc`, `ReplayLegality`, `Calendar` - the replay loop. For every table the court
  accepts the log, and every claim opens first, moves in list order, answers and ends, *if and
  only if* every row satisfies `Playable`, a condition on that row alone, and no path has more
  rows than a folder holds (`realm/r/kourtv2/folders.gno:458`).
* `FinalCourt` - the court a legal replay leaves, claim by claim: answers, who gave them, which
  claims are settled, disputed or closed, every stake, and every folder.
* `Commitment`, `Peaks` - the budget pass over two dictionaries, against the coin the replay
  commits, date by date and transaction by transaction.
* `Filing`, `SeedRun` - the folder sets and the whole file, from the first set to the last call.
* `Outline` - the tree of folders, built on the heap through aliased nodes.

Found on the way, each stated with a concrete table or an exact condition:

* The loop's guard lets an event fall *on* the story's last day; the closing step, one line
  later, then refuses to stand still, and the file is not written.
* The peak that the budget guard bounds is a bound at the end of every date only: within a date
  the replay orders events by rank and claim, and can hold twice the peak. The most it ever holds
  is the peak of the same pass taken in claim number order; and that is the budget's own peak for
  every actor who on no date both stakes and takes back.
* The set phases are accepted exactly when no two folder names collide and no path is deeper
  than the realm nests; the file checks neither. A claim listed with an amount of zero is
  refused by the realm though every guard lets it through.

## Reading and rendering text

* `Shell`, `ShellWords`, `PlanReader`, `PlanText` - `scripts/check-seed-emitters.py` reads a printed
  plan back through shell quoting, command lines spanning several text lines. It inverts the
  printer (`scripts/scenario.py`) exactly when line feeds are the only line breaks in the
  arguments; what it makes of any other text is told in terms of lines, words and flags.
* `Html`, `Inline`, `InlineText`, `Elements`, `Markdown`, `MarkdownLines`, `MarkdownText`,
  `MarkdownBlocks` - the markdown reader inside `scratchpad/apply-rawmd.py`, held against readers
  of tags: one that refuses a tag where it may not stand, and two that list the elements of inline
  text and the blocks of a page with the text each shows. Output is balanced, with lists inside
  items, exactly for documents that never indent a bullet more than one level past the bullet
  right before it; for all documents no text is lost, every block is the one its lines call for,
  and every anchor leads where a link that was taken says. A label of nothing but space is
  replaced by its destination.

## Protocols on the file system

* `FileTree`, `ShadowRoots`, `ShadowBuild`, `ShadowLinks` - `scripts/gnoroot.py`: every
  interleaving of runners that build, stage into, remove and clear away shadow roots. A live root
  is lost in two ways: clearing away takes one whose label has a slash behind a number, and the
  remove command takes any root it is given, whoever runs in it. The checkout is safe while no
  link stands at `examples/gno.land`, at `gno.land/p` or `gno.land/r`, or on the way to the
  directory of roots; each of the three is needed, a run through it is given, and the fourth link
  condition (`Plain`) says only that nothing stands below a link, as in any file tree.
* `CopyLock`, `CopyLedger` - `scripts/make-copies.js`: lock, lanes, write aside and rename, over inodes, so a
  writer keeps its file when the name moves. Looking at the lock's age and writing over it are
  two steps: two processes that find a stale lock can both run, and publish half a page. A lock
  that is let go between the try and the look reads as stale too, so two can run with no old lock
  anywhere. While every look finds a lock that is there and young, at most one runs.

## Guards

* `Identifiers`, `BlankText`, `BlankPieces`, `LazyBodies`, `LoadOrder` - `scripts/check-tdz.py`, from
  the two passes over the text to its verdict: it misses nothing that is read at load, and reports nothing else
  unless a top-level name is `$` or ends in `$function`. Its statement that blanking
  can only hide a reference is false for `$function$` whose first dollar is in no body, and for
  nothing else.
* `HeaderDelivery` - `scripts/check-nginx-headers.py`, with the server's inheritance rule. An
  accepted file can still lose the headers where a location includes some other file.
* `ConstantEvaluator` - `scripts/check-control-anchors.py`, against an evaluation of the same
  expressions: which it answers, and that it answers them rightly; a text's own `join` and formatted fields are where it answers wrongly. For a whole
  module the constants are right when no text it binds is replaced and no name given beforehand
  (`REPO`) is given another value; such a name may be assigned, readably or not.
* `JpegScan` - `scripts/check-seed-assets.py`; after a fill byte before the frame's marker the scan
  goes on at least 49,152 bytes further, and finds nothing in a stream shorter than that; so too,
  with 65,280, after the marker TEM.

## Arithmetic and formats

* `Arithmetic`, `Words`, `Curve` - the bonding curve `realm/p/curve/curve.gno` in 64-bit words,
  and the check on burns in `scripts/check-demo-physics.py`. The correction after the integer
  root is never needed; a court that bought in several steps passes the check on its burn only
  while the roundings of its purchases stay below one coin.
* `Png`, `Exhibit` - `scripts/make-demo-exhibit.py`, with a reader of the format as RFC 2083
  gives it (sections 3.2, 4.1 and 6.2).

## Model

| member | source | states |
|---|---|---|
| Sorting.StableSortIsUnique | scenarios/covid_demo.py:1004 | a list that is in key order and keeps the table's order among equal keys is the sorted list; there is no other |
| Sorting.FilterSort | scenarios/covid_demo.py:1004 | selecting one claim's events before or after the sort gives the same list, for every selection |
| Docket.CheckUnstakes | scenarios/covid_demo.py:606-612 | the running check over one claim passes iff no prefix of its moves leaves an actor below zero on a side |
| Docket.ThreeDatesIff | scenarios/covid_demo.py:657-663 | the guard passes a row iff it has no answer or its moves lie on three different dates |
| Docket.AssignIds | scenarios/covid_demo.py:953-956 | claims get the numbers past the sets, each once, in order of opening date and then of the table |
| Docket.IdsFollowOpening | scenarios/covid_demo.py:953-956 | one claim's number is below another's iff it opens earlier, or the same day and higher in the table; numbers differ |
| Docket.FewTrends | scenarios/covid_demo.py:979-980 | at most four claims are picked for a jump, whatever the table |
| Docket.TrendsAre | scenarios/covid_demo.py:976-980 | the claims picked for a jump are those at every so many places of the opening order, a quarter of the table apart but at least one, from the second place on, at most four, and no others |
| Docket.OwnTimeline | scenarios/covid_demo.py:982-1004 | of the merged and sorted timeline, one claim's events are its own list, sorted on its own |
| Replay.Scenario.Goto | scenarios/covid_demo.py:153-171 | the date moves only forward, by the seconds between and one bucket of height, or refuses and changes nothing |
| Replay.Scenario.ReplayTimeline | scenarios/covid_demo.py:1003-1066 | the loop's final date, jumped claims and log, or its refusal, are those of the replay function, for every event list |
| Replay.PlayStops | scenarios/covid_demo.py:1004-1006 | a refusal on a prefix of the events is the refusal of the whole list |
| CourtKeeps.CourtStaysSound | realm/r/kourtv2/folders.gno:130-180 | after any log an empty court accepts no stake is negative, no claim is both settled and disputed or both answered and closed, every gate of time was met, and folders are a forest four deep with distinct names, of at most 200 claims each |
| CourtKeeps.MayMoveIff | realm/r/kourtv2/folders.gno:115-175 | in any court a log can lead to, a folder may move under another iff the folders are a forest at most four deep afterwards: the two walks and the height together say neither too much nor too little |
| Arc.ArcPlaysIff | scenarios/covid_demo.py:982-1001 | one claim's sorted events run as the table lists them and unrefused by the court iff its row is playable: offsets in order from zero, amounts covered and not zero, nothing after its answer or its end |
| ReplayLegality.OpensInNumberOrder | scenarios/covid_demo.py:953-956 | the k-th claim the sorted replay opens has number sets + k, for every table |
| ReplayLegality.VisitOnChain | scenarios/covid_demo.py:1004-1066 | one turn of the loop is refused by the court iff that claim's life breaks there or its folder is full; otherwise the court shows every life as it stands |
| ReplayLegality.PrefixOnChain | scenarios/covid_demo.py:1003-1066 | the same after any number of events |
| ReplayLegality.ReplayIsLegalIff | scenarios/covid_demo.py:982-1066 | the court accepts the whole log and every claim runs as listed iff every row of the table is playable and no path has more than 200 rows |
| Arc.ArcEnds | scenarios/covid_demo.py:1048-1066 | one playable row's claim at its end: answered as the row says and by whom, settled, disputed or closed, with the stakes of all its moves |
| FinalCourt.ReplayEndsAs | scenarios/covid_demo.py:1003-1066 | the whole court after a legal replay: under each row's number a claim in the folder of the row's path, Yes for rows settled yes, disputed or answered, No for rows settled no, none for dead ones; the second arbiter's iff disputed; each actor's stake what all its moves leave; the sets and folders as they were |
| FinalCourt.SeedEndsAs | scenarios/covid_demo.py:860-1068 | the same from an empty court, after sets, replay and the closing step: every set's claim settled, folders one per set and nested as the paths are |
| Calendar.PlayEndsIff | scenarios/covid_demo.py:1004-1006 | the loop ends without refusal iff every date lies from the base to the story's now, and stands on the last date |
| Calendar.WholeRunEndsIff | scenarios/covid_demo.py:1068 | with the closing step the file ends iff the base is before now and every event strictly before now |
| Calendar.TableEndsIff | scenarios/covid_demo.py:1004-1068 | on the table: the file ends iff the base is before now and every opening, move and ending of every row is strictly before now |
| Calendar.LastDayIsLost | scenarios/covid_demo.py:1005-1006 | whatever the table, when all dates pass the loop's guard and one falls on now, the loop ends and the closing step refuses |
| SeedRun.EventOnTheLastDayIsLost | scenarios/covid_demo.py:1005-1006 | a thinly traded claim that every modelled guard lets through, three dates before its answer included, base before now, whose timeline the loop plays and whose file is refused |
| Calendar.ClocksOfReplay | scenarios/covid_demo.py:1003-1047 | the seconds advanced are exactly the calendar's, each trend claim is jumped at most once, height is one bucket a date and one period a jump |
| Calendar.TurnWrites | scenarios/covid_demo.py:1038-1066 | one turn of the loop writes a picked claim's period step at its first dated move and nowhere else, then the calendar's step, then the claim's own calls: a stake or unstake of the listed amount, the answer of its arc, and so on |
| Calendar.JumpedAre | scenarios/covid_demo.py:1038-1047 | the claims that have jumped are those picked with a dated move already played |
| Calendar.HeightBudget | scenarios/covid_demo.py:648-652 | the loop's height is at most 720 (168 + 2 claims) + 4 periods for tables inside the hourly window whose claims have a day-0 move |
| Calendar.ClockKeepsItsLead | scenarios/covid_demo.py:886 | after any number of events the court's clock is 72 hours and a minute ahead of the narrative date |
| Commitment.MeasureBudget | scenarios/covid_demo.py:628-634 | the two dictionaries hold, for every actor, the clamped running total and its maximum over the moves in date order |
| Commitment.RunningTotalIsHeld | scenarios/covid_demo.py:630-633 | for guarded rows the running total is the actor's stake over all claims and sides at every point, so the clamp never fires |
| Commitment.BudgetMeetsReplay | scenarios/covid_demo.py:628-634 | at the end of every date the running total is what the replay's log has committed for that actor |
| Commitment.PeakBoundsEveryDate | scenarios/covid_demo.py:635-642 | a bound on the peak bounds the commitment at the end of every date |
| Commitment.PeakMissesMiddays | scenarios/covid_demo.py:635-642 | a playable table where, within a date, the replay has committed twice the peak |
| Peaks.HighWaterIsHighest | scenarios/covid_demo.py:635-642 | an actor's high water is reached by some beginning of the log and passed by none |
| Peaks.TimelineMoves | scenarios/covid_demo.py:982-1004 | the moves the sorted timeline plays, opening stakes included, are the table's moves sorted by date and then claim number |
| Peaks.HighWaterIs | scenarios/covid_demo.py:628-642 | for every playable table, the most the replay ever has committed, transaction by transaction, is the peak of the budget pass taken in claim number order on each date; so a cap bounds every moment iff it bounds that peak |
| Peaks.OneWayPeak | scenarios/covid_demo.py:628-642 | for an actor who on no date, over all rows, both stakes and takes back it is exactly the budget's own peak; so any excess needs a date that mixes |
| Filing.CollectSets | scenarios/covid_demo.py:824-829 | the loop with its membership test and sort computes the list of set paths |
| Filing.SetPathsAre | scenarios/covid_demo.py:824-829 | set paths are exactly the nonempty prefixes of claims' paths, each once, shorter ones first |
| Filing.PrefixesComeFirst | scenarios/covid_demo.py:824-829 | every proper prefix of a set's path is an earlier set with a smaller folder number |
| Filing.ParentsComeFirst | scenarios/covid_demo.py:901-904 | so every nesting call names a parent that exists and is smaller: a forest |
| Filing.FileSets | scenarios/covid_demo.py:860-904 | the five phases append exactly the setup log |
| Filing.SetupIsLegalIff | scenarios/covid_demo.py:860-904 | an empty court accepts the setup log iff folder names fit and no path is deeper than the realm nests, and is then left with one settled claim and one nested folder per set |
| SeedRun.CheckTable | scenarios/covid_demo.py:606-772 | passes iff no row goes below zero, moves on fewer than three dates before an answer, or trades past it; otherwise names such a row and which of these it did |
| SeedRun.BuildSeed | scenarios/covid_demo.py:602-1068 | a log comes out iff the guards pass, the base is before now and all dates strictly before now; each error says which of these failed; a log that comes out of an ordinary table whose sets the realm can hold is accepted to the last transaction, with the clock on the story's now |
| SeedRun.SeedIsLegalIff | scenarios/covid_demo.py:860-1066 | an empty court accepts sets and replay together, as listed, iff names fit, the tree is shallow enough, no path has more than 200 rows and every row is playable |
| SeedRun.SeedAccepted | scenarios/covid_demo.py:602-1068 | the static guards suffice for ordinary tables whose folders fit the realm |
| Outline.Tree | scenarios/covid_demo.py:1508-1522 | the heap tree is a forest over exactly the collected prefixes, every folder holding its own claims in table order |
| Outline.ListingByPath | scenarios/covid_demo.py:1508-1522 | flattening the tree lists, under every path, exactly the claims the table files there, in table order |
| Outline.FoldersAreSets | scenarios/covid_demo.py:1508-1522 | the tree has a folder at a path iff the path is one of the sets |
| Outline.SiblingsDiffer | scenarios/covid_demo.py:1508-1522 | folders under one parent have different names |
| Shell.ModeDecidesSplit | scripts/check-seed-emitters.py:108-118 | a fragment is refused iff it ends inside quotes or an escape |
| Shell.SplitInvertsQuote | scripts/scenario.py:579-590 | reading a quoted argument gives the argument, whatever it holds and whatever follows |
| Shell.SplitInvertsPrinted | scripts/scenario.py:579-590 | splitting a printed list of arguments returns the list |
| ShellWords.WordsAreRead | scripts/check-seed-emitters.py:108-109 | words in any mix of bare characters, backslashes, single and double quotes, white space between them, are read as what they mean |
| PlanReader.ReadFlags | scripts/check-seed-emitters.py:121-140 | the cursor over tokens collects caller, function, arguments and coin in order |
| PlanReader.ExtendUntilParsed | scripts/check-seed-emitters.py:105-119 | takes the fewest lines that split, and gives up only when no number of lines does |
| PlanReader.ReadPlan | scripts/check-seed-emitters.py:86-141 | the reader's three cursors compute the calls of the text, or its error |
| PlanText.LinesAreSplit | scripts/check-seed-emitters.py:101 | a text is split at each of the eleven line boundaries, with no empty line behind the last |
| PlanText.StripIs | scripts/check-seed-emitters.py:104 | a line is stripped of the white space at its ends and of nothing else |
| PlanText.FlagsAreRead | scripts/check-seed-emitters.py:121-140 | of any tokens: every `-args` value in order, the last `-func` and `-send`, the last token as signer; a flag that ends the command is a plain token |
| PlanText.BlocksAreRead | scripts/check-seed-emitters.py:86-141 | of any text: one call for each command, from the fewest of its lines that split, and an error iff the last command never splits |
| PlanReader.CommandIsPrinted | scripts/scenario.py:878-996 | the printed transaction is its tokens, each quoted, spaces between |
| PlanReader.PrefixUnbalanced | scripts/check-seed-emitters.py:86-119 | no printed command cut at a line feed splits |
| PlanReader.PlanReadsBack | scripts/check-seed-emitters.py:86-141 | a printed plan reads back call by call and in order, other line breaks inside arguments turned into line feeds |
| PlanReader.RoundTripIff | scripts/check-seed-emitters.py:86-141 | the calls come back unchanged iff line feeds are their only line breaks |
| PlanReader.CarriageReturnIsLost | scripts/check-seed-emitters.py:101 | a call that does not come back |
| Html.EscReadsBack | web/index.html:5422 | escaped text, read by whoever knows the entities, is the text, and has no bracket, quote or backtick |
| Inline.MdInline | scratchpad/apply-rawmd.py:124-158 | the loop over matches and its recursion on strictly shorter strings end, and compute the rendered text |
| Inline.InlineIsBalanced | scratchpad/apply-rawmd.py:124-184 | rendered text leaves the open elements as it found them, in any context; an anchor never opens inside an anchor |
| InlineText.NothingIsLost | scratchpad/apply-rawmd.py:124-184 | what is shown is source characters, each at most once, in order and escaped; a character is missing iff it is a delimiter of a span that was taken, at the top or inside another, or the destination of a taken link with a label, or the blank label of one |
| InlineText.EscapesAreUndone | scratchpad/apply-rawmd.py:140-148 | text with at least its active characters escaped is shown as it was before (section 2.4 of CommonMark) |
| InlineText.TakenIff | scratchpad/apply-rawmd.py:148 | at each place the pattern takes the span whose delimiters stand there with parts running as far as they may, emphasis only where nothing else stands |
| InlineText.CharactersAre | scratchpad/apply-rawmd.py:148 | what a backslash escapes is ASCII punctuation; the word characters that keep emphasis out are ASCII letters and digits, beside the underscore |
| Elements.SpansMakeElements | scratchpad/apply-rawmd.py:148-184 | in every text the elements a reader of tags meets are those the spans taken call for, in order, each showing what its own stretch shows alone: strong, code, em, and an anchor exactly where the page may link |
| Elements.AnchorsAreWritten | scratchpad/apply-rawmd.py:159-184 | in every text there is an anchor to a place iff a link that was taken leads there, and it is then a page of this view or an `http` or `https` address, letters in either case |
| Elements.LinksAreRead | scratchpad/apply-rawmd.py:174-184 | whatever its label, a link's HTML is an anchor iff its destination begins with the realm's path or one of the two schemes, and the bare label otherwise; a blank label shows the destination; an image gets its note |
| Elements.SpansAreRead | scratchpad/apply-rawmd.py:148-157 | each delimiter makes its element around what it holds, other spans included, and text without active characters stays text |
| MarkdownLines.LinesReadBack | scratchpad/apply-rawmd.py:197-221 | a heading, quotation, bullet, rule or line of prose written around any text is read as that shape, level and text |
| MarkdownLines.KindIs | scratchpad/apply-rawmd.py:197-221 | every line is read as a rule, heading, quotation or item iff its characters spell one, with that level and text, and as prose iff they spell none |
| MarkdownLines.DocumentLines | scratchpad/apply-rawmd.py:197 | the lines of a document, line feeds put back between them, are the document without its carriage returns |
| Markdown.MdLite | scratchpad/apply-rawmd.py:185-224 | the line machine with its in-place edits computes the page |
| Markdown.Writer.Put | scratchpad/apply-rawmd.py:197-221 | one line's effect on fragments, paragraph, quotation and depth together |
| Markdown.Writer.OpenList | scratchpad/apply-rawmd.py:213-217 | a deeper list reopens the item above it, if the last fragment ends one |
| Markdown.NestsIffGentle | scratchpad/apply-rawmd.py:185-224 | the page is balanced with every nested list inside an item iff no bullet is indented more than one level past the bullet right before it |
| MarkdownText.NoLineIsLost | scratchpad/apply-rawmd.py:185-224 | for every document the page shows every line's text, in order |
| MarkdownBlocks.BlocksAreCalledFor | scratchpad/apply-rawmd.py:185-224 | in every document the blocks a reader of tags meets, with their depth of lists and the text each shows, are those the lines call for: `p` for a run of prose, `blockquote` for a run of quoted lines, `h2` to `h6` by level, `li` for a bullet, `hr` for a rule |
| ShadowRoots.NameGivesPid | scripts/gnoroot.py:76-90 | the part of a root's name after its last dash is its owner's pid, whatever the worktree and label hold |
| ShadowRoots.NamesApart | scripts/gnoroot.py:128 | different pids never share a root name |
| ShadowRoots.StepSparesOthers | scripts/gnoroot.py:65-207 | no call but its own work, and the removal of that very root, changes anything in a live runner's root |
| ShadowRoots.LiveRootsAreSpared | scripts/gnoroot.py:65-207 | the same at every point of every interleaving of builds, stagings, clearings and removals of any path by anyone, for all labels without a slash |
| ShadowRoots.RemovalTakesIff | scripts/gnoroot.py:194-207 | after the removal of a path a live root is gone iff the path is that root or there was nothing |
| ShadowRoots.RealNeverChanges | scripts/gnoroot.py:97-207 | in every interleaving the checkout stays exactly as it was, when no label has a slash and no link stands on the way to the staging places |
| ShadowRoots.ReapableIff | scripts/gnoroot.py:76-92 | a live root can be cleared away iff its name up to the first slash ends in a number other than its owner's pid |
| ShadowLinks.LinkedLand | scripts/gnoroot.py:97-192 | from any tree whose `examples/gno.land` links into the checkout, above a staged place there, six calls of one runner change the checkout |
| ShadowLinks.LinkedKind | scripts/gnoroot.py:97-192 | the same, in seven calls, for a link at `gno.land/p` or `gno.land/r` |
| ShadowLinks.LinkedBase | scripts/gnoroot.py:53-130 | and, in three, where the directory of roots is itself a link into the checkout |
| ShadowBuild.Host.Reap | scripts/gnoroot.py:65-94 | one pass clears what its names and live pids say, counts it, and leaves the caller's own root alone |
| ShadowBuild.ReapedIff | scripts/gnoroot.py:76-92 | what is left after a pass is exactly what was under no dead owner's root |
| ShadowBuild.Host.Build | scripts/gnoroot.py:97-144 | run alone, the new root is links for the top of the checkout but `examples` and `.git`, and a copy of `examples` without the staged places; it fails iff a link stands where the root goes |
| ShadowBuild.RootFollowsCalls | scripts/gnoroot.py:97-207 | in every interleaving a live root is what its own runner's calls make of it, in their order, while nobody is told to remove it |
| ShadowBuild.BuiltAmongOthers | scripts/gnoroot.py:97-144 | so when a runner's own calls are those of a build, in order, and all other turns are anybody's, the root ends as that shadow |
| ShadowBuild.ShadowHolds | scripts/gnoroot.py:128-162 | which paths a shadow holds and as what, told by name: links at the top but for `examples` and `.git`, copies below `examples` but for `cryptocourt` and `kourt` in any `gno.land/p` or `gno.land/r` |
| ShadowBuild.PickedIs | scripts/gnoroot.py:190 | a file is staged iff it is `gnomod.toml` or its name ends in `.gno` |
| ShadowBuild.Host.Stage | scripts/gnoroot.py:166-191 | the staging place holds exactly the picked files, and nothing beside it changes but directories on the way |
| ShadowBuild.Host.Remove | scripts/gnoroot.py:194-237 | whatever is not a root of this place is refused untouched; any root, the caller's or another live runner's, is cleared whole, and every other live root is left as it was |
| CopyLock.OneAtATimeIff | scripts/make-copies.js:187-205 | never two runs at once iff no break of the lock finds a run in progress; the lock file is then there throughout every run |
| CopyLock.YoungLocksKeepApart | scripts/make-copies.js:187-205 | if every look at the lock finds one of an age from zero to below the limit, no lock is ever broken and at most one process runs |
| CopyLock.YoungRunIsSafe | scripts/make-copies.js:193-200 | a process that looks at the lock of a run younger than the limit gives up |
| CopyLedger.LookIff | scripts/make-copies.js:193-202 | a process that looks gives up iff the lock is there and its age rounds to 0 up to 1199 seconds; otherwise it goes on to break it |
| CopyLedger.LockIsLetGo | scripts/make-copies.js:187-206 | if nobody is killed and no break finds a run in progress, the lock file is there exactly while somebody runs |
| CopyLock.EveryTargetIsCounted | scripts/make-copies.js:220-258 | in every run no two lanes hold one target, and at the end written and failed add up to the targets iff there was a lane or nothing to do |
| CopyLedger.CountersAreTallies | scripts/make-copies.js:222-258 | in every run written is the number of pages moved into place and found there, failed the number of the others dealt with |
| CopyLedger.FinishedRunCounts | scripts/make-copies.js:219-260 | a run that finishes has dealt with all its targets iff it was given a lane or had no target |
| CopyLock.PublishedIsWhole | scripts/make-copies.js:238-252 | a published path holds one whole document at every moment, whoever is killed half way, while no break finds a run in progress |
| CopyLedger.PagesChangeByPublishing | scripts/make-copies.js:238-252 | while no break finds a run in progress, a turn that publishes a page leaves it holding the document just written, and every other turn leaves every page as it was |
| CopyLock.BreakersRace | scripts/make-copies.js:192-202 | a run in which two processes break one stale lock, both run, and half a document is published |
| CopyLock.VanishedLockRace | scripts/make-copies.js:187-202 | a run in which no lock is ever old, one is let go between a try and a look, and two processes run |
| BlankText.BlankOut | scripts/check-tdz.py:51-117 | the buffer overwritten by nested loops is the blanked text |
| BlankText.TextBlanks | scripts/check-tdz.py:51-117 | length and offsets are kept and every character is itself or a space |
| BlankText.NoCut | scripts/check-tdz.py:88-111 | blanking starts and stops inside no run of identifier characters, but before the dollar of an interpolation |
| BlankText.TextInventsOnlyDollar | scripts/check-tdz.py:51-117 | every identifier left is one of the source's at that offset, or that dollar |
| BlankText.KeptIff | scripts/check-tdz.py:51-117 | an identifier character is kept iff it is read in code or in an interpolation |
| Identifiers.CharactersAre | scripts/check-tdz.py:42-43 | identifier characters in ASCII are the letters, digits, `_` and `$`, and all but the digits may begin one |
| BlankPieces.BlanksAsWritten | scripts/check-tdz.py:51-117 | a text written as pieces - code, comments of both kinds, strings, templates with escapes and interpolations - blanks piece by piece: code and interpolations stand, the rest is spaces |
| LazyBodies.StripLazy | scripts/check-tdz.py:120-194 | the buffer after all bodies are overwritten is the stripped text |
| LazyBodies.StrippedIsFine | scripts/check-tdz.py:120-194 | offsets and line breaks are kept, and a run of identifier characters is cut in one case only |
| LazyBodies.StrippedIs | scripts/check-tdz.py:134-194 | a character is turned into a space iff it lies in the body of some arrow or function, line breaks aside |
| LazyBodies.CloseEndIs | scripts/check-tdz.py:149-169 | a braced body ends at the bracket that closes it, or at the end of the text |
| LazyBodies.ExprEndIs | scripts/check-tdz.py:171-185 | a body without braces ends at the first separator outside the brackets it opens, told by counting brackets |
| LazyBodies.MarkAtIs | scripts/check-tdz.py:134-148 | an arrow or the keyword is read as the start of a body exactly where its characters stand |
| LazyBodies.BodyIs | scripts/check-tdz.py:134-194 | so which stretch of the text is a mark's body, told from its characters |
| LazyBodies.LazyInventsIff | scripts/check-tdz.py:134-136 | an identifier not in the source appears iff the source has the keyword between two dollars, the first of which lies in no arrow's or function's body |
| LazyBodies.GuardReadsRealNames | scripts/check-tdz.py:216-239 | the two passes together: without that pattern every longer name the guard reads is in the source at that offset |
| LoadOrder.CollectDecls | scripts/check-tdz.py:38-42 | the pattern's matches, one after the other, are the declarations at every place one starts; none starts inside another |
| LoadOrder.DeclAtIff | scripts/check-tdz.py:38-42 | a declaration is read at a place iff it is the start of a line and a keyword, white space, a name and an equals sign stand there |
| LoadOrder.WhiteIs | scripts/check-tdz.py:42 | the white space a declaration may hold, in ASCII |
| LoadOrder.InitEndIs | scripts/check-tdz.py:197-213 | an initialiser ends at the first semicolon not inside brackets it opened, told by counting brackets, or at the end |
| LoadOrder.FirstsAre | scripts/check-tdz.py:223-225 | a name's recorded place is below a declaration iff every declaration of the name is |
| LoadOrder.Scan | scripts/check-tdz.py:216-239 | the loops over declarations and references report, in order, each declaration's first late name |
| LoadOrder.ReportIff | scripts/check-tdz.py:197-239 | a declaration is reported iff its initialiser in the stripped text holds an identifier of which every declaration stands below |
| LoadOrder.NothingIsMissed | scripts/check-tdz.py:197-239 | for every source: a name that an initialiser reads in code or in an interpolation, in no body, and that is declared only below, gets the declaration reported |
| LoadOrder.VerdictIsExact | scripts/check-tdz.py:197-239 | where no top-level name is a lone dollar or ends in `$function`, that is when a declaration is reported and at no other time |
| LoadOrder.PassesIff | scripts/check-tdz.py:216-256 | so such a file passes iff no declaration reads, while it loads, a name declared below it |
| LoadOrder.DollarIsMisread | scripts/check-tdz.py:88-111 | with a top-level name `$` an interpolation behind template text is reported as reading it |
| HeaderDelivery.Parse | scripts/check-nginx-headers.py:70-108 | the walk's stack, shared blocks and closed locations are those of the walk function |
| HeaderDelivery.WalkRecovers | scripts/check-nginx-headers.py:70-108 | from any flat file - one server block, lines indented, spaced and commented in any way, other lines before, inside and after it - the walk recovers the server's directives and each location's, in order |
| HeaderDelivery.WhiteIs | scripts/check-nginx-headers.py:65-67 | the white space a directive may hold, in ASCII |
| HeaderDelivery.Check | scripts/check-nginx-headers.py:146-208 | accepts iff rules 1 to 4 hold |
| HeaderDelivery.AcceptsIff | scripts/check-nginx-headers.py:146-208 | on the lines of a flat file: accepted iff the snippet declares all three headers, the server includes it and adds none of them, some location adds a header, and every location that does includes the snippet and adds none of the three |
| HeaderDelivery.AcceptedLosesIff | scripts/check-nginx-headers.py:4-7 | under the inheritance rule an accepted file's location lacks a header iff it declares none, includes no snippet, and other files it includes declare some header but not all three |
| HeaderDelivery.AcceptedIsDelivered | scripts/check-nginx-headers.py:40-52 | so where no other included file declares a header, acceptance delivers all three |
| HeaderDelivery.BodyBlockIs | scripts/check-nginx-headers.py:92-100 | a block's headers are the names its lines add, and its includes the paths its lines include |
| HeaderDelivery.AcceptedFileDelivers | scripts/check-nginx-headers.py:4-52 | from text to delivery: when a flat file's text is accepted, every location written in it sends all three headers, where no other file it includes declares one |
| ConstantEvaluator.Build | scripts/check-control-anchors.py:55-64 | two passes over the assignments |
| ConstantEvaluator.EvIsSound | scripts/check-control-anchors.py:67-93 | on its fragment every answer is the value the expression evaluates to |
| ConstantEvaluator.EvAnswersIff | scripts/check-control-anchors.py:67-93 | there is an answer iff the expression is of a form the evaluator reads: texts, held names, sums, fields, `join` and two-argument `replace` of such |
| ConstantEvaluator.EvIsComplete | scripts/check-control-anchors.py:67-93 | and for a readable expression the answer is its value |
| ConstantEvaluator.BuildNames | scripts/check-control-anchors.py:55-64 | the names held at the end are the presets and those assigned, in one of two passes, an expression readable by then |
| ConstantEvaluator.ReadableIsHeld | scripts/check-control-anchors.py:55-64 | so an assignment of a readable expression leaves its name among the constants |
| ConstantEvaluator.PathJoinIs | scripts/check-control-anchors.py:85-87 | joined parts none of which is absolute stand one behind the other with one slash between |
| ConstantEvaluator.AbsoluteStartsOver | scripts/check-control-anchors.py:85-87 | an absolute part drops what came before it |
| ConstantEvaluator.ReplaceFirst | scripts/check-control-anchors.py:88-91 | replacing puts the new text for the first occurrence and goes on behind it |
| ConstantEvaluator.ReplaceNone | scripts/check-control-anchors.py:88-91 | a text without the old one stays as it is |
| ConstantEvaluator.JoinOnText | scripts/check-control-anchors.py:85-87 | an expression whose value is another text than the answer |
| ConstantEvaluator.FormatsAreDropped | scripts/check-control-anchors.py:73-80 | a formatted field is answered with the unformatted value |
| ConstantEvaluator.BuildSettles | scripts/check-control-anchors.py:55-64 | for a module that runs, whatever is given beforehand, the second pass changes nothing, if every assignment the evaluator reads, to a name that has a value, repeats the name's constant |
| ConstantEvaluator.OnceRepeats | scripts/check-control-anchors.py:55-64 | so it is, and no text is replaced, in a module that assigns each name once |
| ConstantEvaluator.BuildIsSound | scripts/check-control-anchors.py:55-105 | and every constant is what the name holds after the module has run, if no text is ever replaced by another value and each name given beforehand ends with the value given, should the module assign it |
| ConstantEvaluator.ForwardReference | scripts/check-control-anchors.py:56-57 | a name used before its assignment is resolved by the second pass though the module raises |
| ConstantEvaluator.SecondAssignment | scripts/check-control-anchors.py:58-63 | an unreadable second assignment leaves a stale constant |
| Curve.Cost | realm/p/curve/curve.gno:76-112 | succeeds iff the move stays under the cap and its price fits a word, and is then the exact integral rounded up |
| Curve.Isqrt128 | realm/p/curve/curve.gno:189-209 | the largest root not above the search bound, for every pair of words |
| Curve.AffordableIff | realm/p/curve/curve.gno:132-136 | a position is affordable iff its square is at most the operand |
| Curve.OperandIsSmall | realm/p/curve/curve.gno:126-131 | past the short cut the operand is below the cap's square |
| Curve.Candidate | realm/p/curve/curve.gno:131-155 | the root is the largest affordable position, and the clamp is out of reach |
| Curve.Corrected | realm/p/curve/curve.gno:156-170 | from any position the two loops end at the largest affordable one |
| Curve.Minted | realm/p/curve/curve.gno:118-178 | the most units a payment buys, and exactly their price |
| Curve.CorrectionNeverSteps | realm/p/curve/curve.gno:156-170 | so, the largest affordable position being one, the correction gives back the candidate |
| Curve.PriceBuysTheMove | realm/p/curve/curve.gno:114-118 | paying a move's price buys at least the move and spends that price |
| Curve.SplittingIsNeverCheaper | scripts/check-web-constants.py:464-472 | purchases in steps burn at least what one does and at most one more per extra step; exactly as much iff their roundings stay below one coin |
| Curve.CeilDivIsUp | scripts/check-demo-physics.py:154-155 | negate, floor, negate is division rounded up |
| Curve.BurnPassesIff | scripts/check-demo-physics.py:176-189 | a court's burn passes the check iff the roundings of its purchases stay below one coin |
| Png.ReadsBackIff | scripts/make-demo-exhibit.py:45-58 | a file reads back as its pixels iff the rows are as many and as long as the header says |
| Exhibit.Paint | scripts/make-demo-exhibit.py:85-88 | painting a clipped rectangle adds it on top of those seen |
| Exhibit.Sheet | scripts/make-demo-exhibit.py:81-111 | every pixel is the colour of the last rectangle over it, or paper |
| Exhibit.PixelIs | scripts/make-demo-exhibit.py:81-111 | the colour of every point, told from its coordinates: table row, title, subtitle, edge or paper |
| Exhibit.Encode | scripts/make-demo-exhibit.py:81-113 | the file reads back as an image of the asked size with those pixels |
| JpegScan.JpegSize | scripts/check-seed-assets.py:43-60 | in bounds and finished on every input |
| JpegScan.FrameIsFound | scripts/check-seed-assets.py:43-60 | behind any list of lone markers, stray bytes and marker segments that are no frames the frame's width and height are found, iff a byte follows them |
| JpegScan.FillByteIsMisread | scripts/check-seed-assets.py:46-59 | with a fill byte before the frame, which the standard allows, the scan goes on behind the frame's start by its marker and length byte read as a length, 0xC000 bytes or more; nothing is found where frame and rest together are shorter |
| JpegScan.TemIsMisread | scripts/check-seed-assets.py:46-59 | the marker TEM, which has no length either but is not on the list, is skipped by the frame's own marker read as a length, 0xFF00 bytes or more; nothing is found in a shorter stream |

## Left out

- Docket: claims' keys, titles and bodies; keys are taken as distinct, so a row's place in the table stands for its key; dates are day numbers; a row's list of moves is taken as not empty, as its shapes make it.
- The shape functions, the cast and the guards on flat charts and on the ratio of 0.35 (a float).
- Court: balances, bonds, emission, the trailing average and answerability, height caps and gas; accounts, purchases, associations, media, boards and notes. The realm's own behaviour past the gates a seed meets.
- Commitment.PeakBoundsEveryDate: bounds the end of a date and not its middle, where the bound can fail (`Commitment.PeakMissesMiddays`); `Peaks` says what bounds the middle.
- SeedRun.BuildSeed: the folder descriptions' length check and the calls after the replay are not part of this model.
- Outline.Tree: the tree is described for claims with a nonempty path; the source indexes an empty one as an error.
- Shell.ModeDecidesSplit: shlex in POSIX mode without comments, on ASCII white space; console and process calls around it.
- PlanReader.RoundTripIff: for transactions as the printer writes them, with a caller and a function; comment and clock lines of a plan are printed but carry no call.
- Inline.InlineIsBalanced: regular expressions are written out as matchers, JavaScript's strings as characters rather than UTF-16 units; PKG is the realm's path.
- ShadowRoots.RealNeverChanges: links hold absolute targets, the directory of roots exists and is reached by no link, and a pid that no runner holds counts as gone; pids too large for a system call, and digits past ASCII, make the source raise.
- ShadowRoots.LiveRootsAreSpared: checking a pid and deleting its root is one step; between the two a new process may take the pid.
- ShadowBuild.BuiltAmongOthers: a build whose calls meet an error the source raises on (a root removed half way) stops there; the listing of the checkout is taken as read once.
- ShadowBuild.Host.Stage: one pair of source and destination, called once per pair.
- CopyLock.PublishedIsWhole: page content, the browser, the listing of claims and exit codes; times are whole milliseconds.
- LoadOrder.VerdictIsExact: what is code, an interpolation and a body is what the two passes take for it, regular expressions as literals not being one of them; white space past ASCII in a declaration; files that are not there, and the printed report.
- BlankText.TextBlanks: a line break escaped inside a template becomes a space, so line breaks are kept everywhere else only.
- HeaderDelivery.WalkRecovers: header values and line numbers, which no rule reads; white space past ASCII; braces inside a location, on lines of their own or behind its opening one.
- HeaderDelivery.AcceptedLosesIff: every included path ending in the snippet's name is taken to lead to it; rule 5, about another file; the `always` flag.
- ConstantEvaluator.BuildIsSound: of a module's statements only simple assignments are modelled; an expression of another form stands for what it evaluates to.
- Curve.Minted: the construction check on the curve's parameters is its precondition `Built`.
- Png.ReadsBackIff: compression is any invertible pair and the check sum any function into four bytes.
- Exhibit: the folder covers, whose diagonal is floating point; base64 and digests.
- The repository's realm beyond the gates above, its web page, servers, shell scripts and remaining guards.
