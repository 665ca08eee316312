# Verified models of the weave, the diff pipeline, the repacker and two indexes

This project models, in Dafny, the parts of the repository where correctness is hard to see from any one function, and
proves what they are for.

* **The weave** (`CFOLD.c`, `CFOLD.h`). One file's whole commit graph lives in an append-only body, a parent-sorted
  index, commit records and ignore-sets; reading is a preorder walk of a causal tree. `CfoldModel` to `CfoldHistory`
  give its meaning: a document is the replay of insertions in a canonical order of the commits, and `CfoldKeeps` says
  what a fold keeps by the pairs of its diff. `Weave` to `WeaveRuns`
  model the stored weave and every loop over it, and prove that it represents that meaning: recovery, convergence,
  immutability and the projection of a joint walk hold of the bytes that are read.
* **The diff pipeline** (`BRAM.c`, `NEIL.c`). Patience recursion over an opaque diff, and three in-place rewriters of
  edit scripts. `NeilVerdict` says in byte counts what the cleanup gives up and that nothing false is left, `NeilSweeps`
  has scripts that outrun its sweeps; `NeilSettle` bounds the passes of the last, `NeilLine` and `NeilRunsOut` build a
  script that outruns its cap. `TokenDiff` joins them, and `WeaveDiff` puts them where the fold asks for a diff.
* **The object codec** (`git/DELT.c`, `git/PACK.c`): delta round trip, header round trips, and a resolver that ping-pongs
  between two buffers and computes exactly the recursive meaning of a record; `WireForms` gives the formats byte by byte.
* **The streaming repacker** (`git/REPACK.c`, read back by `git/PIDX.c`). `RepackInv` states what every step keeps,
  `RepackRun` is the state machine with its cascade of wakes and rotations, `RepackFill` says when it leaves a log,
  `RepackIndex` is its dirty page and runs,
  `RepackRead` says what every row resolves to, `RepackScan` scans the logs back, `RepackLimits` and `RepackTwice` show
  where an OK run does not give back what went in, `RepackStall`, `RepackDeep` and `RepackOrder` where a run cannot end OK.
* **The puppy stack** (`DOG.c`), a memtable over a ladder of runs that always stands for a last-write-wins map, and
  **the event log** (`ULOG.c`), whose sidecar index always tells the rows of a linear scan.
* **Bracket matching** (`tok/BRCT.c`): counting one kind of bracket agrees with a stack of all of them.

Unseen dependencies are parameters with contracts: the Myers diff (`GoodLcs`), deflate and inflate (`GoodZlib`), object
hashes (`HashesTell`, `CitesOwn`), the line-hash fold (`FoldTells`), the RON number codec (`UlogCodec.GoodCodec`), the lane's sync
and merge (`GoodLane`), the ladder's policy and the clock (any function).

## Where the code promises less than it seems

`Run` is proved for any source pack over any shard whose rows all read back: objects may come twice, in the pack and in
the shard, and records may be of unknown types or over-size deltas. An OK run lands and indexes every record, and no row
ever resolves to another object or to a missing base. Which rows resolve is read off the pack and the shard before the
run (`RepackDepth`): an object is `Within` n deltas if every copy of it is whole, or a delta that fits the resolver's
scratch over something within n - 1; it is `Beyond` them if every copy is a record nothing reads or a delta over
something beyond n - 1. Within 256 it resolves, beyond 256 it does not, whichever of its copies the lookups answer with.
Where an object and all it is over come once, it is one or the other (`AloneDecides`), so if no object comes twice in
pack and shard an OK run gives back exactly the objects within 256 deltas (`OnceDecides`, `RepackThenScan`). What is
lost, each with a lemma that shows it:

* a record of type 0 or 5 lands like a whole object, and its row never resolves (`UnknownTypeLands`);
* landing resolves the base with 256 hops, so a record 257 deltas deep lands and does not resolve (`DeepLost`);
* a delta is applied in the whole scratch when it lands but in half of it when it is resolved: over a base that resolves
  it does if and only if its stream and its result each fit that half (`HalfDecides`, `HalfLost`);
* of an object that comes both whole and as a delta, or at different depths, the verdict may hang on which copy answers
  and on where the logs are cut: `TwiceLost` loses two records that `OneLogReads` reads back. Copy by copy it is settled:
  a new copy that answers its name resolves if and only if neither its own citation nor its base's chain leads back to
  it, it fits the scratch, and it is at most 256 deep (`SecondCopy`; `SelfCitedLost` is the copy that cites itself). All
  that read through the old copy then resolves if and only if the new one is sound and the depth counted through it is
  at most 256 (`OthersAfter`; `DeepCopyLost`); the rest is as before.

A lookup scans the dirty page newest first, then the runs newest first, and within one sorted run takes the first row
of the prefix, which is the one at the lowest offset (`git/REPACK.c:154-180`). So a newer copy answers while it is in
the page or in a younger run, and may not after runs are merged; the run and scan theorems hold for any lookup that
answers with some row of the prefix (`GoodPick`), which the index's own (`LookupGood`) and the scanner's (`SortedFinds`)
do.

A run may also fail to end well for the order of its records alone:

* a record of type 0 or 5 wakes the deltas that wait for it, but a lookup passes over its row, so each is held again under
  the same prefix and woken again, without end (`git/REPACK.c:463-481`). The condition is exact: the next record stalls
  so if and only if it is of type 0 or 5 and a delta before it in the pack names its object (`StallDecides`,
  `RepackRun.Repack.Next`; `StallInput` has two records). The model ends with `Stuck` there; `StallLoops` and `RoundsOn`
  say what the code does instead. Where the delta comes later it is held for good and the run ends with REPACKBASE
  (`NamedUnadmitted`, `LateInput`).
* every wake lands one call deeper, and a call 256 deep fails with REPACKBASE. Such an end has a chain of 256 records in
  the pack, each held over the one before (`Excused`), and where each names the one before, all come once, and all come
  before the whole record they lead to, no run ends OK (`Overhung`), though in the other order the same records are each
  within 256 deltas (`HungWithin`, `OrderInput`).

The run ends with records still held if and only if the chain of bases of some record is missing or runs in a circle
(`NoneWaits`). The "the chase ran into a missing base, hold the record" branch (`git/REPACK.c:550-552`) is never taken:
whatever is indexed has its bases indexed, so `Fetch` fails by depth, scratch or a bad stream only.

`NEILCleanup` sweeps until nothing is left to give up, eight times at most. A sweep that gives something up gives up a
kept run without identifier or line break, so eight are enough for a script with eight such runs or fewer
(`NeilVerdict.CleanupLeaves`); there are scripts with nine that are left with a false equality (`NeilSweeps.SweepsRunOut`).
The test for a line of code (`NEIL.c:343-370`) never decides anything: a run with a line break in it was kept before
(`NeilVerdict.NoCodeLine`).

`NEILShift` slides until nothing changes, so that a second slide changes nothing (property 6, `test/NEIL01.c:296-306`),
and caps the passes at n + 4 because every pass that changes something drops an entry (`NEIL.c:588-596`). Neither holds of
every valid script. A pass may slide a change and drop nothing (`NeilSettle.SlideOnly`), and there is a valid script of 58
entries, in normal form and left alone by the cleanup, that 62 passes leave short of a fixed point: the second slide
changes it again (`NeilRunsOut.RunsOut`). What holds instead:

* after the first pass changes slide to the right only and settle from the right end, so n / 2 + 2 passes are enough
  unless a kept run is used up on the way (`ShiftSettles`, and `Shift` and `ShiftTwice` say so of their own results);
* so n + 4 are enough for any script whose kept runs each hold an identifier (`AnchoredSettles`);
* (n + 1)(n + 4) passes are enough for any script (`ShiftReaches`).

## Model

| member | source | states |
|---|---|---|
| `TopoOrder.KahnElements` | CFOLD.c:235-254 | The canonical order lists every pending commit exactly once: the walk never stops early ("not a DAG") on an ancestry-closed table. |
| `TopoOrder.KahnCausal` | CFOLD.c:209-216 | In the canonical order every commit comes after each of its ancestors. |
| `TopoOrder.KahnRestrict` | CFOLD.c:209-216 | Leaving out commits whose absence hides no pending ancestor leaves the others in exactly the order they have on their own; the order depends on ids and ancestry only, never on arrival. |
| `TopoOrder.KahnLast` | CFOLD.c:235-254 | A commit that has all others for ancestors is ranked last. |
| `Rga.WalkIsReplay` | CFOLD.c:290-296 | The preorder walk that takes later siblings first visits tokens in exactly the order obtained by replaying the insertions, each right after its anchor. |
| `Rga.ReplayFilter` | CFOLD.c:258-284 | Filtering a document to tokens whose anchors are kept is replaying the kept insertions alone. |
| `CfoldModel.DocElements` | CFOLD.c:190-207 | A scope's document holds exactly the tokens of its commits, each once. |
| `CfoldModel.DocRestrict` | CFOLD.c:258-261 | The part of a larger scope's document that a smaller causal scope sees is the smaller scope's own document. |
| `CfoldFold.PatchReplay` | CFOLD.c:985-998 | Replaying one commit's own tokens over the kept baseline gives the edit script's new document, insertions sitting at their last surviving token. |
| `CfoldFold.PatchGrows` | CFOLD.c:985-998 | Playing a script only appends tokens, and tombs exactly the tokens the script drops. |
| `CfoldFold.PatchDistinct` | CFOLD.c:991-998 | No two tokens of one commit hang off the same parent. |
| `CfoldFold.KeptIsFilter` | CFOLD.c:987-990 | What the script keeps is the baseline without the tombed tokens, in order. |
| `CfoldHistory.TextMerged` | CFOLD.c:1028-1047 | The merged document spells the new file: kept tokens through byte-equal pairs, added ones literally. |
| `CfoldHistory.FoldRecovers` | CFOLD.c:901-1107 | Right after a fold, the new commit's scope shows exactly the folded file. |
| `CfoldHistory.FoldShows` | CFOLD.c:1000-1048 | The new commit's scope shows the script's merged token list; what that is in terms of the diff's own pairs is `FoldKeepsPairs`. |
| `CfoldKeeps.UnitsPairs` | CFOLD.c:1026-1047 | Played step by step or entry by entry, a script keeps the same pairs. |
| `CfoldKeeps.MergedPlaced` | CFOLD.c:1026-1047 | Each place of the merged list holds the old token the script pairs with it, or the next new one. |
| `CfoldKeeps.FoldKeepsPairs` | CFOLD.c:1000-1047 | One fold, said with the pairs of its diff: a paired token of the past is the very token shown in its new place, every other token shown is the commit's own and in order, and tombed are exactly the past's tokens in no pair. |
| `CfoldHistory.RunRecovers` | CFOLD.c:901-1107 | After any causal run of folds and merges, every content commit still shows its own file byte for byte, whatever was folded later. |
| `CfoldHistory.RunImmutable` | CFOLD.c:966-998 | One more fold changes no older commit's document, visible tokens or text. |
| `CfoldHistory.RunIsCanon` | CFOLD.c:913-950 | A run gives each commit a record that depends on its own causal past alone. |
| `CfoldHistory.RunsConverge` | CFOLD.c:913-950 | Two runs over the same commits in any two causal orders end in the same state. |
| `Weave.PackUnpack` | CFOLD.h:86-87 | A packed word reads back as its tag and its offset cut to 24 bits. |
| `Weave.PackOrder` | CFOLD.h:50-64 | Packed words compare as (tag, offset), so children of one parent stay contiguous. |
| `Weave.Blame` | CFOLD.c:113-128 | The binary search finds the one commit whose body range covers an offset, and fails exactly past the body's end. |
| `Weave.BlameUnique` | CFOLD.c:113-115 | Body ranges tile the body: whatever commit covers an offset is its blame. |
| `Weave.Group` | CFOLD.c:166-182 | The hinted or binary-searched start of a sibling group is always the lower bound, given that the entry before the hint belongs to an earlier group. |
| `Weave.GroupEnd` | CFOLD.c:184-188 | The scan ends exactly behind the last entry with that parent. |
| `Weave.IsPresent` | CFOLD.c:190-207 | Never fails, and says whether the entry inserts a token below the scope's bound by a commit it does not ignore. |
| `Weave.Mask` | CFOLD.c:273-284 | One presence answer per walked scope. |
| `WeaveRep.PosCausal` | CFOLD.c:913-924 | Ancestors have smaller build indices. |
| `WeaveRep.OffUnique` | CFOLD.c:113-115 | A body offset names one token. |
| `WeaveRep.RepBlame` | CFOLD.c:113-128 | Blame of a token's offset is the build index of the commit that inserted it. |
| `WeaveFacts.CommitSees` | CFOLD.c:155-164 | A stored commit's scope sees exactly its ancestors and itself. |
| `WeaveFacts.PastSees` | CFOLD.c:944-950 | The writer's baseline scope sees exactly the new commit's past. |
| `WeaveFacts.ParUnique` | CFOLD.h:50-57 | Equal parent words name equal parents. |
| `WeaveFacts.PresentEntry` | CFOLD.c:190-207 | An entry is present exactly when it inserts a token of a commit in scope. |
| `Ranks.StartPending` | CFOLD.c:227-234 | Initially each commit waits for exactly its ancestors, and the ignore count never exceeds the index. |
| `Ranks.PickReady` | CFOLD.c:236-241 | The scan picks the ready commit with the smallest id, and there always is one. |
| `Ranks.Release` | CFOLD.c:244-253 | Exactly the later pending commits that do not ignore the emitted one wait for one fewer. |
| `Ranks.RankCommits` | CFOLD.c:209-256 | The rank of every commit is its place in the canonical order of the whole table, whatever the arrival order. |
| `WalkOrder.ScopeOrder` | CFOLD.c:209-216 | Ranks over the whole table order the commits of any closed scope as that scope's own canonical order does. |
| `WalkOrder.NodesRanked` | CFOLD.c:286-296 | Among the tokens in play, a later one of another commit has the higher rank. |
| `Siblings.Key` | CFOLD.c:298-307 | The sibling key is the inserting commit's rank and the token's offset. |
| `Siblings.SiblingKeys` | CFOLD.c:286-296 | Under one parent the key orders by replay, latest first, strictly. |
| `Siblings.Pick` | CFOLD.c:324-357 | With no visited set the next child is the least pending present entry strictly after the previous one, or none is left. |
| `Siblings.PickMeans` | CFOLD.c:324-357 | The picked entry is the latest child not yet visited. |
| `Siblings.PickEnds` | CFOLD.c:324-357 | When nothing is picked no child is left. |
| `TokenEnds.Settle` | CFOLD.c:415-435 | One scan of a token's children finds the terminator, or else the least inserted offset, and buries the scopes a tomb hides it from. |
| `TokenEnds.EndIsEnd` | CFOLD.c:415-435 | The end so found is where the token's bytes end. |
| `TokenEnds.NeverTorn` | CFOLD.c:434-436 | Some end is always found: a represented weave never reads as torn. |
| `TokenEnds.LivesMeans` | CFOLD.c:416-431 | The alive bit is set exactly for tokens the scope sees and no visible tomb hides. |
| `WeaveIter.StackFits` | CFOLD.c:437-438 | Whenever a child is left to visit there is a frame left to push: the caller's area is never outgrown. |
| `WeaveIter.NodesFit` | CFOLD.h:162-164 | There are no more tokens in play than index entries. |
| `WeaveIter.RestDescend` | CFOLD.c:399-438 | Descending into a child splits what is owed into the child, its subtree, and the rest of the group. |
| `WeaveIter.VisitStack` | CFOLD.c:405-438 | A visit leaves a well-formed stack that owes exactly what it owed less the visited token. |
| `WeaveIter.Measure` | CFOLD.c:408-436 | A visited token is described by its body range, tag and per-scope bits. |
| `WeaveIter.Iter.constructor` | CFOLD.h:149-164 | The iterator's area is exactly `CFOLDIterMem` words: two counters, a rank per commit, four words per frame. |
| `WeaveIter.Iter.Begin` | CFOLD.c:387-394 | The first call ranks the commits and pushes the top group, and owes the whole document. |
| `WeaveIter.Iter.Visit` | CFOLD.c:405-448 | Visiting the picked child returns it described and takes exactly it off what remains. |
| `WeaveIter.Iter.Next` | CFOLD.c:375-452 | Each call returns the next token in document order until none is left; it never fails, so the walk terminates after one call per token. |
| `WeaveRead.RenderScope` | CFOLD.c:499-506 | A scope renders to the text its commits show. |
| `WeaveRead.WalkAll` | CFOLD.c:462-480 | A walk over any scopes visits the document of all of them together, each token once, in order, described per scope. |
| `WeaveRead.WalkCovers` | CFOLD.c:258-261 | A token is walked exactly when some walked scope sees it. |
| `WeaveRead.Baseline` | CFOLD.c:881-896 | The diff baseline is what the new commit's past shows, each token with its own body offset. |
| `WeaveRead.Produce` | CFOLD.c:508-517 | Every stored commit is produced, never torn, and of the recorded length; only an index past the table fails. |
| `WeaveRead.ProduceLast` | CFOLD.c:519-526 | The alive view is the last folded commit's. |
| `WeaveRead.FindCommit` | CFOLD.c:102-111 | A commit id is found exactly if it was folded, at its build index. |
| `WeaveRead.DecodeScopes` | CFOLD.c:554-588 | One joint walk decodes exactly the tokens alive in either revision, classified by which. |
| `WeaveRead.JointProjection` | CFOLD.c:258-261 | Of any larger walk, the tokens alive at a scope are exactly that scope's own visible text. |
| `WeaveRead.DiffProjects` | CFOLD.c:554-588 | Dropping the inserted tokens of a decoded diff leaves the `from` text, dropping the deleted ones leaves the `to` text. |
| `WeaveRead.Decode` | CFOLD.c:570-588 | The same, for any two stored commits by index; dropping one class leaves the text of either revision. |
| `WeaveGrow.GrowToken` | CFOLD.c:966-968 | A token's offset, end, bytes and parent survive one more commit. |
| `WeaveGrow.GrowEntries` | CFOLD.c:1055-1073 | A token's stored entries are the same entries after one more commit. |
| `WeaveGrow.GrownRepresents` | CFOLD.c:1055-1091 | Appending a commit's body, entries, record and ignores represents the grown history. |
| `IndexMerge.BatchSorted` | CFOLD.c:1055-1056 | The sorted batch holds the same entries in strict order. |
| `IndexMerge.MergeIndex` | CFOLD.c:1055-1076 | The merge takes exactly old + new steps and yields one sorted index of exactly both entry sets. |
| `IndexMerge.MergeKeepsOrder` | CFOLD.c:1062-1073 | Old entries keep their relative order. |
| `WeavePen.CloseOk` | CFOLD.c:981-984 | Closing a chain leaves every token either continued or terminated. |
| `WeavePen.KeepOk` | CFOLD.c:985-986 | Keeping a token closes the chain and moves the parent to it. |
| `WeavePen.DropOk` | CFOLD.c:987-990 | Dropping a token closes the chain and leaves a tomb with the commit's index, the parent unmoved. |
| `WeavePen.AddOk` | CFOLD.c:991-998 | Adding a token appends its bytes and hangs it off the current parent, which it becomes. |
| `WeaveWrite.NormalSame` | CFOLD.c:1042-1046 | Within a run of changes, doing all insertions and then all deletions amounts to the script as given. |
| `WeaveWrite.SumRun` | CFOLD.c:1036-1041 | Sums a maximal run of changes, up to the next kept run. |
| `WeaveWrite.PlayScript` | CFOLD.c:1026-1048 | Playing the whole script writes the commit's tokens, tombs and terminators, or reports a body past 24 bits. |
| `WeaveFold.NewIgnores` | CFOLD.c:913-924 | The ignore list is exactly the folded commits outside the new one's past, ascending. |
| `WeaveFold.ReadPast` | CFOLD.c:937-950 | The baseline read for a fold is what the past shows. |
| `WeaveFold.WriteBatch` | CFOLD.c:1000-1049 | Empty, all-new, all-dropped and diffed folds all finish the commit, fail exactly when the body overflows 24 bits, and append to the body the bytes of the tokens in no pair of the diff, in order, and nothing else. |
| `WeaveFold.FoldAppends` | CFOLD.c:1078-1091 | The output streams are the old ones grown by the commit. |
| `WeaveKeeps.FoldKeepsTokens` | CFOLD.c:985-999 | Over any two weaves before and after a fold: paired tokens stay where they are under the blame they had, and the body grows by the unmatched tokens' bytes. |
| `WeaveFold.Assemble` | CFOLD.c:1055-1091 | Body and ignore pool are extended, records appended, old index entries kept, in old + new merge steps. |
| `WeaveFold.RenderLast` | CFOLD.c:1093-1102 | The render that fills the materialized length is the new commit's own view. |
| `WeaveFold.OlderShows` | CFOLD.c:966-998 | An older commit shows in the grown state what it showed before. |
| `WeaveFold.Fold` | CFOLD.c:901-1107 | A fold either overflows the 24-bit body, exactly then failing, or yields a weave representing the folded history, with body, records and pool extended, all index entries kept, and lengths recorded. A token the diff pairs with one of the past keeps that one's offset and blame, every other one is blamed on the new commit, and the body grows by the bytes of those others alone; a pure merge leaves body and index alone. |
| `WeaveRuns.FoldRun` | CFOLD.c:901-1122 | Folding a whole history in any causal order succeeds exactly when the body it needs fits, and represents the run. |
| `WeaveRuns.Recover` | CFOLD.c:508-517 | From any weave a run built, producing by id returns the folded file byte for byte, never torn and never of a wrong length. |
| `WeaveRuns.WeavesConverge` | CFOLD.c:209-216 | Weaves built in different orders show the same bytes and record the same length at every commit, merges included, though offsets and indices differ. |
| `WeaveRuns.ProduceBoth` | CFOLD.c:508-517 | Produced from either weave, a commit's bytes are equal. |
| `WeaveKeeps.TokensStay` | CFOLD.c:113-128 | One more fold leaves every older token's offset, end and blame alone. |
| `WeaveRuns.RanksStay` | CFOLD.c:209-256 | One more commit leaves the relative rank of all older ones alone. |
| `WeaveRuns.MergeShows` | CFOLD.c:898-900 | A pure merge shows what its parents together show. |
| `EditLists.SameMerge` | NEIL.c:44-57 | Merging two entries of one kind changes nothing. |
| `EditLists.SameSwap` | NEIL.c:656-659 | A deletion and an insertion side by side may swap. |
| `EditLists.TurnsIsValid` | NEIL.c:107-413 | Consuming both sides exactly with every kept pair equal is being a valid token script. |
| `EditCanon.CanonNormal` | NEIL.c:613-670 | The normal form has one insertion then one deletion per gap, nothing empty or split, edits the same, and is no longer. |
| `EditCanon.CanonIdempotent` | NEIL.c:613-670 | Normalizing twice is normalizing once. |
| `EditCanon.CanonUnique` | NEIL.c:613-670 | Two lists have one normal form if and only if they keep the same pairs and consume the same totals. |
| `EditCanon.RebuildIs` | NEIL.c:640-659 | A normal list is determined by its kept pairs and totals, gap by gap. |
| `NeilTokens.BestShiftSafe` | NEIL.c:475-551 | The chosen slide only moves equal tokens into a kept run and no identifier out of one. |
| `NeilTokens.RoomIsAll` | NEIL.c:475-512 | The room on each side is all the tokens in a row that may move, and not one more. |
| `NeilTokens.BestShiftBeats` | NEIL.c:514-551 | Of all the places in its room a change takes one no other scores above, and the last of those. |
| `NeilTokens.BoundaryIs` | NEIL.c:76-105 | What each of the six scores says of the two bytes a boundary comes between. |
| `NeilCanon.Canonicalize` | NEIL.c:613-670 | The in-place rewrite leaves exactly the normal form and never grows the list. |
| `NeilCanon.Merge` | NEIL.c:44-57 | The in-place merge leaves the joined list: the same edits, nothing empty, no two neighbours of one kind. |
| `NeilCanon.TightUnique` | NEIL.c:44-57 | There is one list without empty or splittable entries for one way to step, so the merge has no choice. |
| `NeilCleanup.ListFits` | NEIL.c:116-128 | A list without empty entries has at most old + new entries. |
| `NeilCleanup.KillsPlain` | NEIL.c:226-258 | A kept run with an identifier or a line break in it is never given up. |
| `NeilCleanup.Sweep` | NEIL.c:156-397 | One sweep judges every kept run once, at most doubles the list, gains no pair, keeps every protected pair, and reports a change exactly when there was one; which runs it gives up is `KillsMeans`. |
| `NeilCleanup.SweepAll` | NEIL.c:124-398 | Two scratch buffers of 2*(old+new)+16 entries are enough in every sweep; the result is the sweep repeated to its fixed point, eight times at most. |
| `NeilCleanup.CleanedSettles` | NEIL.c:131-398 | The sweeps end where no run is left to give up, unless each of them gave one up: with no more runs without identifier and line break than there are sweeps they always do. |
| `NeilCleanup.Cleanup` | NEIL.c:107-413 | The cleaned list is a valid script in normal form, with no pair gained and no protected pair lost; what is left of it is `CleanupLeaves`. |
| `NeilVerdict.InkedCount` | NEIL.c:24-42 | The bytes the cleanup adds up token by token are the byte positions of tokens that are no whitespace, counted. |
| `NeilVerdict.FragmentIs` | NEIL.c:270-303 | The line-fraction test is that of less than a quarter of the bytes between the line breaks around the run, in a line of four or more. |
| `NeilVerdict.NoCodeLine` | NEIL.c:343-370 | The test for a line of code never decides: a run that gets there has no line break in it. |
| `NeilVerdict.KillsMeans` | NEIL.c:156-397 | In byte counts of stretches: a kept run is given up if and only if there are changed bytes on both sides, it has neither identifier nor line break, and it is a fragment of its line, or all whitespace of fewer bytes than change around it, or under 16 bytes and fewer than change around it, or under 64 and fewer than change on either side. |
| `NeilVerdict.SweptPairs` | NEIL.c:156-397 | Of a script's pairs a sweep leaves exactly those of the runs that are not given up so. |
| `NeilVerdict.RunIsEntry` | NEIL.c:156-397 | A longest row of kept pairs is one kept entry of the list, and the changes beside it are those beside the entry. |
| `NeilVerdict.EntryIsRun` | NEIL.c:156-397 | And the other way round. |
| `NeilVerdict.CleanupLeaves` | NEIL.c:107-413 | In the cleanup's result every kept run meets one of the stated reasons to stay, unless more runs than the eight sweeps had neither identifier nor line break to begin with. |
| `NeilSweeps.OnlyFirst` | NEIL.c:156-397 | In one family of scripts each sweep finds one false equality, which uncovers the next. |
| `NeilSweeps.SweepsRunOut` | NEIL.c:131-398 | So nine such runs are one too many: valid scripts in normal form in whose cleaned list a false equality is left. |
| `NeilShift.SlideKeeps` | NEIL.c:553-557 | A safe slide leaves a valid script with every identifier pair still matched to the same partner. |
| `NeilShift.ShiftPass` | NEIL.c:424-574 | One in-place pass leaves a valid script with all identifier pairs, every change at its best place in turn, and reports a change exactly when some region would slide. |
| `NeilShift.StuckCanon` | NEIL.c:588-595 | A list no region of which would slide stays so in normal form when that is no shorter. |
| `NeilSettle.BestStays` | NEIL.c:475-557 | A change that has taken its best place never slides left again while its surroundings only give way on the right, and does not slide at all unless the run behind it has grown. |
| `NeilSettle.PassNoLeft` | NEIL.c:424-574 | After any pass no change would slide to the left. |
| `NeilSettle.PassSettles` | NEIL.c:424-574 | From then on each pass settles two more entries from the right, so what a pass can still unsettle shrinks from the right end. |
| `NeilSettle.SlideOnly` | NEIL.c:588-595 | A pass over a valid script that changes something and drops no entry, which the reason given for the cap rules out. |
| `NeilSettle.ShiftSettles` | NEIL.c:588-611 | With half as many passes as entries and two more, sliding leaves through its fixed-point test unless a kept run was used up on the way: productive passes that drop no entry come only that often in a row. |
| `NeilSettle.ShiftReaches` | NEIL.c:588-611 | With (n + 1)(n + 4) passes over n entries sliding always leaves through its fixed-point test, whatever is dropped on the way. |
| `NeilSettle.AnchoredSettles` | NEIL.c:588-611 | If every kept run holds an identifier, no kept run is ever used up and the cap of n + 4 passes is enough. |
| `NeilCleanup.CleanupStays` | NEIL.c:107-413 | A normal script without a run to give up comes out of the cleanup as it went in. |
| `NeilLine.SlidesTo` | NEIL.c:475-557 | In texts that differ at marked tokens only, a change slides to the last of the places where the boundaries at its two ends score best, between its neighbours and its marks. |
| `NeilLine.PassIs` | NEIL.c:424-574 | So a pass over the script of some intervals gives the script of the intervals so slid, one after the other. |
| `NeilLine.JoinCanon` | NEIL.c:603-606 | Where two of them touch, the normal form has them as one. |
| `NeilRunsOut.WalksOn` | NEIL.c:597-609 | From any step of any walk of the built script, one pass too few for all there is to do leaves exactly one thing to do. |
| `NeilRunsOut.RunsOut` | NEIL.c:588-611 | A valid normal script of 58 entries, left alone by the cleanup, is not at a fixed point after its 62 passes: a second slide changes what the first left. |
| `NeilSettle.Shift` | NEIL.c:576-611 | Sliding to a fixed point leaves a valid normal script with all identifier pairs; leaving through the fixed-point test means nothing would slide any more, and the passes run out only if kept runs were used up on the way. |
| `NeilSettle.ShiftTwice` | NEIL.c:576-611 | After a slide that left through its fixed-point test, or used up no kept run, a second slide changes nothing. |
| `NeilSettle.Rewrite` | CFOLD.c:1019-1025 | Cleanup then slide: valid before, valid after, every matched identifier still matched to the same partner, and exactly the cleanup's result slid pass by pass. |
| `Patience.EditList.AddEntry` | BRAM.c:304-309 | An entry joins the last of its kind or is appended, so no two neighbours are of one kind; it fails only on a full list, which it leaves alone. |
| `Patience.FallbackEdl` | BRAM.c:19-28 | Rewinds the list and replaces everything, failing only without room for two entries. |
| `PatienceLines.SplitLines` | BRAM.c:55-82 | The lines tile all tokens, each with the fold of its hashes, broken exactly behind newline hashes. |
| `PatienceLines.SplitUnique` | BRAM.c:55-82 | There is one way to split hashes into lines that tile them and break behind newlines. |
| `PatienceLines.TilesAscend` | BRAM.c:55-82 | Lines ascend without overlap. |
| `PatienceLines.CountGroup` | BRAM.c:218-226 | A group of equal hashes is counted exactly on each side. |
| `PatienceLines.MarkAnchors` | BRAM.c:184-233 | A line is an anchor exactly when its hash occurs once on each side. |
| `PatienceDiff.PickAnchors` | BRAM.c:235-254 | Anchor hashes and line indices are listed in source order. |
| `PatienceDiff.AnchorEqual` | BRAM.c:286-309 | Two matched anchors are equal stretches of tokens. |
| `PatienceDiff.Region` | BRAM.c:106-131 | A region between anchors appends a valid script for its two stretches, itself a patient one; all is replaced only where the inner diff gives up or the list is short of room, and it fails only when the list is full. |
| `PatienceDiff.StitchAnchor` | BRAM.c:286-313 | Behind what is laid already come the script of the region before the anchor, patient in its turn, and the anchor as one kept run. |
| `PatienceDiff.Stitch` | BRAM.c:278-336 | Regions and anchors partition both inputs into one valid script: every matched anchor whole, and before, between and behind them the regions' own patient scripts. |
| `PatienceDiff.Bram` | BRAM.c:149-340 | The recursion terminates, strictly shrinking; OK means a valid script was appended that is patient all the way down: all matched anchors whole and each stretch between them diffed the same way, or, without anchors, the plain diff. With room for one entry a token it fails only where there is nothing to anchor on and the inner diff gives up; it leaves the list untouched or full. |
| `PatienceDiff.SharedKept` | BRAM.c:149-340 | Of two inputs that share a token, the diff never keeps nothing. |
| `PatienceDiff.StretchKept` | BRAM.c:106-131 | Nor does any stretch between anchors, unless the inner diff gives it up. |
| `PatienceDiff.PatientKeeps` | BRAM.c:286-309 | A patient script keeps every matched anchor whole. |
| `PatienceDiff.PatientUnique` | BRAM.c:149-340 | With room enough there is one patient script of two inputs, to the last step. |
| `TokenDiff.HashScript` | CFOLD.c:1011-1015 | A script over hashes that tell texts apart is a script over the texts. |
| `TokenDiff.DiffTokens` | CFOLD.c:1006-1025 | Always a valid script over the token texts, in normal form: the patience script cleaned of false equalities and slid into place; everything is replaced only where there is nothing to anchor on and the inner diff gives up. |
| `TokenDiff.RefinedUnique` | CFOLD.c:1011-1025 | There is one such refined diff. |
| `WeaveDiff.FlatCuts` | CFOLD.c:892-907 | Cut at its running ends, the flattened text is the tokens' own bytes again. |
| `WeaveDiff.Collect` | CFOLD.c:888-907 | Collecting a baseline appends bytes, a running end and a tag for each token. |
| `WeaveDiff.DiffLists` | CFOLD.c:1000-1025 | The diff of two token lists is a valid script over the bytes the weave keeps, in normal form, and is the refined one wherever the inner diff answers. |
| `WeaveDiff.PromisedIsGood` | CFOLD.c:1000-1025 | A diff that answers as the token diff promises is exactly one all results about folds and runs are proved for. |
| `DeltaFormat.SizeRoundTrip` | git/DELT.c:7-22 | A fed 64-bit size drains to itself and stops right behind it. |
| `DeltaFormat.DrainSizeLoop` | git/DELT.c:7-22 | The draining loop reads sizes as specified, errors included. |
| `DeltaFormat.SpreadRoundTrip` | git/DELT.c:93-111 | Sparse little-endian fields gather back under any command byte announcing them. |
| `DeltaCodec.Apply` | git/DELT.c:24-76 | The applier computes exactly the delta's recursive meaning, error for error; byte by byte that meaning is `CopyWire`, `InsertWire` and `MeaningWire`. |
| `DeltaCodec.CopyPlays` | git/DELT.c:93-111 | A fed copy of up to 0xffffff bytes, the implicit 0x10000 included, copies exactly that stretch; which bytes it is fed as is `CopySparse`. |
| `DeltaCodec.InsertPlays` | git/DELT.c:113-126 | Fed inserts append exactly their bytes, across the 127-byte split. |
| `DeltaCodec.RebuildsAll` | git/DELT.c:143-151 | Instructions that rebuild the whole target, behind the two sizes, mean the target. |
| `DeltaCodec.BuildTable` | git/DELT.c:161-174 | Every table slot holds the last base window that hashes to it, as one more than its offset, or nothing. |
| `DeltaCodec.Extend` | git/DELT.c:207-226 | A match grows forward and backward as far as the bytes agree, but not back into flushed bytes. |
| `DeltaCodec.Scan` | git/DELT.c:176-252 | Literal runs and copies together rebuild the target exactly, by the greedy choice of matches. |
| `DeltaCodec.Encode` | git/DELT.c:143-260 | The delta is the greedy one and always means the target; OK exactly when the whole output is shorter than the target. |
| `DeltaCodec.EncodeThenApply` | git/DELT.c:24-260 | Applying an encoded delta to the same base gives the target back. |
| `DeltaCodec.OpsNext` | git/DELT.c:184-252 | Where no window is found in the base all is spelled out; where the first is found comes a copy that covers it and cannot be longer at either end, and only what is before it is spelled out. |
| `WireForms.CopyWire` | git/DELT.c:40-64 | A copy command by byte position, whatever of it is left out: bit k of the low four announces offset byte k, the next three the size bytes, offset bytes first, low byte first; no size means 0x10000; out of bounds is a bad format. |
| `WireForms.CopyInFull` | git/DELT.c:45-58 | A command byte 0xff and seven bytes: four of the offset, three of the size, each low byte first. |
| `WireForms.CopyBare` | git/DELT.c:45-58 | A bare 0x80 copies the first 0x10000 bytes of the base. |
| `WireForms.CopyTorn` | git/DELT.c:45-51 | A copy with fewer bytes behind it than it announces ends without data. |
| `WireForms.InsertWire` | git/DELT.c:65-71 | An insert's command byte counts the literal bytes behind it; zero is reserved, too few or too many are a bad format. |
| `WireForms.CopySparse` | git/DELT.c:93-111 | The encoder's copy has its non-zero offset and size bytes in that order and no other byte. |
| `WireForms.MeaningWire` | git/DELT.c:27-33 | First the base's size, which is not looked at, then the result's, then the instructions. |
| `WireForms.CopyInput` | git/DELT.c:24-76 | Over eight bytes, the copy 0x91 4 2 gives the fifth and the sixth. |
| `WireForms.SizeWire` | git/DELT.c:7-22 | A size is seven bits a byte, low first, up to the first byte below 128; bits past 64 are lost. |
| `WireForms.SizeEnds` | git/DELT.c:7-22 | Groups without an end are a bad format from the eleventh on, and no data before. |
| `WireForms.HeaderWire` | git/PACK.c:40-60 | A record's type is bits 6 to 4 of its first byte, its size the low four bits and then seven a byte. |
| `WireForms.GroupsEnd` | git/PACK.c:52-57 | Size groups without an end are a bad format past 64 bits, and no data before. |
| `WireForms.OfsWire` | git/PACK.c:62-75 | A base offset is seven bits a byte, high first, each byte but the last counting one more. |
| `WireForms.ObjHdrWire` | git/PACK.c:77-93 | Behind the size come the base offset of an offset delta, the 20 bytes of a named base, or nothing. |
| `PackFormat.HeaderRoundTrip` | git/PACK.c:40-60 | A fed object header drains to its type and 64-bit size. |
| `PackFormat.OfsRoundTrip` | git/PACK.c:61-75 | A fed base offset drains to itself for every 64-bit value. |
| `PackFormat.FeedObjHdr` | git/PACK.c:113-126 | The header encoder appends exactly the specified bytes. |
| `PackFormat.FeedOfs` | git/PACK.c:95-111 | Groups are built low to high with the bias and emitted high to low. |
| `PackFormat.DrainObjHdrSteps` | git/PACK.c:77-93 | Headers of all three kinds parse as specified, errors included. |
| `PackResolve.Chase` | git/PACK.c:225-279 | The chase ends within 256 hops even on cyclic references; what it failed with, or the hops it recorded, is the record's meaning. |
| `PackResolve.Resolve` | git/PACK.c:213-312 | The resolved type and bytes, or the error, are exactly the record's recursive meaning across packs; source and destination never overlap. |
| `PackWrite.FeedObj` | git/PACK.c:128-169 | Appends the delta exactly when one is allowed and smaller than the content, else the whole content; the delta means the content. |
| `PackWrite.MeantExtend` | git/PACK.c:213-312 | A resolvable record means the same after any append to its pack. |
| `PackWrite.MeantMore` | git/PACK.c:252 | Allowing more hops changes no meaning. |
| `PackWrite.RawReadsBack` | git/PACK.c:159-168 | A raw record resolves to its type and content. |
| `PackWrite.DeltaReadsBack` | git/PACK.c:134-157 | A delta record resolves to the content with its base's type, one hop deeper. |
| `PackWrite.WriteThenResolve` | git/PACK.c:128-312 | Writing an object and resolving it gives its type and content back. |
| `RepackChain.ReadsMeant` | git/PACK.c:225-279 | A record that reads through d deltas resolves exactly when d or more hops are allowed, and otherwise fails. |
| `RepackChain.ReadsGrow` | git/REPACK.c:182-231 | Growing logs and a growing index leave every reading alone: same object, same depth. |
| `RepackChain.RawReads` | git/REPACK.c:397-426 | A whole record re-emitted with its payload verbatim reads back at once. |
| `RepackChain.DeltaReads` | git/REPACK.c:397-426 | A delta re-emitted over wherever its base landed reads back one hop deeper. |
| `RepackChain.RecordExtent` | git/PACK.c:185-204 | A re-emitted record ends where its bytes end, whatever follows. |
| `RepackRows.StoredGrows` | git/REPACK.c:185-231 | What a landed record is - its payload, its object, the base it cites - does not change as logs and rows grow. |
| `RepackRows.RowsGrow` | git/REPACK.c:300-311 | One more record and its row: every row still is the landed record or the shard's own row it was. |
| `RepackIndex.Find` | git/REPACK.c:154-180 | The dirty page is searched newest first, then the runs newest first, each by binary search, rows of other than object types passed over. |
| `RepackIndex.LookupNewest` | git/REPACK.c:154-180 | A lookup answers with the newest admitted row of the page; without one the youngest run answers whose first row of the prefix is admitted, with that row; otherwise none. |
| `RepackIndex.LookupGood` | git/REPACK.c:150-180 | Whatever is still in the page and whatever in which run, a lookup answers with a row of the prefix if there is one. |
| `RepackIndex.Flush` | git/REPACK.c:251-299 | Landing the page as a sorted run and merging runs, however many the policy picks, loses and adds no row. |
| `RepackIndex.Add` | git/REPACK.c:303-311 | One more row is held, through any flush of a full page. |
| `RepackDepth.AloneDecides` | git/PACK.c:213-312 | Where an object and all it is a delta over come in one copy each, it is either within n deltas or beyond them. |
| `RepackDepth.WithinMore` | git/PACK.c:252-253 | What is within n deltas is within more. |
| `RepackRead.RowReads` | git/PACK.c:213-312 | Whichever copies its lookups answer with, a row never resolves to another object nor to a missing base; it resolves if all copies of its object in pack and shard are within the hops, and does not if all are beyond them. |
| `RepackRead.HalfDecides` | git/PACK.c:285-310 | Over a base that resolves, a delta that applied when it landed resolves if and only if its stream and its result each fit half the scratch. |
| `RepackRead.DeltaObject` | git/REPACK.c:533-561 | A landed delta's object is its instructions on the object its base prefix names. |
| `RepackInv.ParkKeeps` | git/REPACK.c:428-451 | Holding a record back keeps consumed = landed + held, one wait row per held record. |
| `RepackInv.WakeTakes` | git/REPACK.c:462-482 | The first row waiting for a landed object is taken out; if a lookup finds the object, its record's base has landed. |
| `RepackInv.RotateKeeps` | git/REPACK.c:335-385 | A rotation changes nothing the map, the lane or the index say. |
| `RepackInv.LandKeeps` | git/REPACK.c:606-621 | A landing keeps everything; only its own prefix may have to be woken. |
| `RepackEmit.SourceRaw` | git/REPACK.c:533-538 | A whole source record's object is its inflated payload. |
| `RepackEmit.SourceDelta` | git/REPACK.c:539-561 | A delta source record's object is its instructions on its base's object. |
| `RepackEmit.NewRow` | git/REPACK.c:580-618 | The row of a record just written is that source record: its payload and object, its base cited by offset in the same log or by name. |
| `RepackEmit.BaseObject` | git/REPACK.c:502-531 | The row found for a delta's base is of the very object the delta is over, and its hash is the name to cite. |
| `RepackEmit.LandsOver` | git/REPACK.c:502-531 | A record whose base is in the index has a chain of bases that ends in something whole or in the shard. |
| `RepackLayout.HdrRoundTrip` | git/PACK.c:12-38 | A fed pack header drains to its 32-bit count. |
| `RepackLayout.HdrWire` | git/PACK.c:21-38 | Magic word, version and count, four bytes each, high byte first. |
| `RepackLayout.LayoutWrite` | git/REPACK.c:397-426 | A landing keeps the logs tiled by whole records, offsets citing the same log and names an earlier one. |
| `RepackLayout.LayoutSeal` | git/REPACK.c:361-385 | Sealing puts the record count into the header and moves nothing. |
| `RepackLayout.LayoutOpen` | git/REPACK.c:335-359 | A fresh log is empty with a zero count. |
| `RepackLayout.BeforeAnswers` | git/PIDX.h:59-68 | The rows of the earlier logs answer every name the records of a log cite. |
| `RepackSteps.MapFind` | git/REPACK.c:136-148 | The binary search finds the row of a source offset exactly if there is one. |
| `RepackSteps.WaitFind` | git/REPACK.c:233-245 | The lower bound is the first row waiting for a prefix, or none waits. |
| `RepackSteps.HeldMustWait` | git/REPACK.c:502-510 | A record over a held base must wait where its base waits; one taken out of the lane meets a held base only if no lookup finds what it waited for. |
| `RepackSteps.Landing` | git/REPACK.c:596-621 | One landing keeps the step invariant, grows the logs, and only its own prefix may have to be woken. |
| `RepackOutcome.BaseReads` | git/REPACK.c:547-553 | A landing record's base never resolves to another object nor to a missing base; within 256 deltas it does, beyond them it does not. |
| `RepackOutcome.WakesDeeper` | git/REPACK.c:462-482 | Every record a cascade of wakes takes out comes before the record that started it and was held over the one that woke it, so a cascade 256 deep is a chain of 256 such source records. |
| `RepackOutcome.StallWaits` | git/REPACK.c:462-531 | When a record of type 0 or 5 is next, something waits for its object if and only if a delta before it in the pack names that object. |
| `RepackOutcome.StallDecides` | git/REPACK.c:596-620 | When any record has landed, what waits for it is not found by a lookup if and only if it is of type 0 or 5 and a delta before it in the pack names it. |
| `RepackStall.StallLoops` | git/REPACK.c:462-481 | Exactly then the wake loop is in a state where each row it takes out is held again under the same prefix, |
| `RepackStall.RoundAgain` | git/REPACK.c:428-482 | and each such round lands nothing, uses up one more hold slot, and ends in such a state again, |
| `RepackStall.RoundsOn` | git/REPACK.c:428-482 | so after any number of rounds there is one more to do: the loop has no end. |
| `RepackOutcome.NamedUnadmitted` | git/REPACK.c:154-180 | A delta that names an object of type 0 or 5 cannot land; if it comes first the object stalls, and if it comes later it is held for good. |
| `RepackStall.StallInput` | git/REPACK.c:462-481 | Two records that stall: a delta that names the record behind it, which is of type 5. |
| `RepackStall.LateInput` | git/REPACK.c:743-745 | The same two the other way round do not stall, and the delta is left over. |
| `RepackOutcome.RootedLanded` | git/REPACK.c:462-482 | At the end of the source every record whose chain of bases ends in something whole or in the shard has landed. |
| `RepackFill.FiledLanded` | git/REPACK.c:578-618 | A record landed in a fresh log is the one the log before was left for, and the logs hold no more than their headers and what landed. |
| `RepackFill.FiledOpened` | git/REPACK.c:578-592 | A log is left for a record that would take it past its cap, under the longest header and with its base's name if that is elsewhere. |
| `RepackFill.LogsRunOut` | git/REPACK.c:335-337 | 64 logs left so, and only on a source that fills them: 64 times the cap is less than the shard's log, 64 headers and largest records, and all the records together. |
| `RepackOutcome.NoneWaits` | git/REPACK.c:743-745 | At the end something still waits if and only if some record's chain of bases is missing or runs in a circle. |
| `RepackOutcome.AllPreserved` | git/REPACK.c:606-618 | With nothing held back every source object is indexed and its rows read as that object. |
| `RepackDeep.HungWithin` | git/REPACK.c:490-494 | A chain of n deltas over a record within d deltas is within d + n: nothing is wrong with its records. |
| `RepackDeep.OverUnlanded` | git/REPACK.c:502-531 | As long as a record has not landed, nothing that names its object has, if both objects come once. |
| `RepackDeep.ShallowLand` | git/REPACK.c:462-494 | When a record and all that waited for it have landed, chains over it are at most one longer than those over what it woke: the depth counts links of the cascade. |
| `RepackDeep.NotOverhung` | git/REPACK.c:490-494 | A whole record that landed well had no chain of 256 deltas before it in the pack, each naming the one before. |
| `RepackOrder.OrderInput` | git/REPACK.c:490-494 | A pack of 257 records, the k-th object over the one before, last object first: every record can land and is within 256 deltas, and yet the chain over its last record is 256 long. |
| `RepackOnce.OnceAlone` | git/PACK.c:213-312 | If no object comes twice in pack and shard, everything indexed comes in one copy all the way down. |
| `RepackOnce.OnceDecides` | git/PACK.c:213-312 | Then after an OK run a source object resolves if and only if its record is whole, or a delta that fits the scratch over a base within 255 deltas. |
| `RepackRun.Repack.constructor` | git/REPACK.c:766-773 | A run starts from any shard whose index rows all resolve, several rows of one object allowed. |
| `RepackRun.Repack.ReadRec` | git/REPACK.c:697-729 | One record's fields and end, or exactly the fault it fails with: no data, a bad header, over-size, torn, a bad stream, an offset to before the pack. |
| `RepackRun.Repack.Locate` | git/REPACK.c:502-531 | A base is found with its object, or the record must wait; one taken out of the lane must wait again only if no lookup finds what it waited for; an offset where no record starts is an error. |
| `RepackRun.Repack.Park` | git/REPACK.c:428-454 | Holding back consumes the record, adds its map row in order and one sorted wait row. |
| `RepackRun.Repack.Fetch` | git/REPACK.c:533-563 | Success means the content is the source record's object, resolved over its base; it succeeds if the base is within 256 deltas, fails if it is beyond, and never for a missing base. |
| `RepackRun.Repack.HoldBack` | git/REPACK.c:565-576 | A record without its base is held back when it arrives; one taken out of the lane has its map row already and is stuck. |
| `RepackRun.Repack.Emit` | git/REPACK.c:397-426 | The record is appended verbatim behind a rewritten header, citing its base by offset or by hash; the log never passes its cap. |
| `RepackRun.Repack.Seal` | git/REPACK.c:361-385 | Only a log's own header is rewritten; every log keeps its length and records. |
| `RepackRun.Repack.Open` | git/REPACK.c:335-359 | An existing first log is appended behind, any other slot opens a fresh one, past 64 logs it fails. |
| `RepackRun.Repack.Rotate` | git/REPACK.c:578-590 | Sealing and opening keep the step invariant in the next slot, and why the log was left; there is no next slot only once 64 logs were left so. |
| `RepackRun.Repack.Record` | git/REPACK.c:606-618 | The map row is patched or appended, the new row indexed and findable, the invariant kept. |
| `RepackRun.Repack.Append` | git/REPACK.c:596-618 | Emitting and indexing one record keeps the invariant, its own prefix still to be woken. |
| `RepackRun.Repack.Land` | git/REPACK.c:490-621 | Landing one record, with rotation and the cascade of wakes, terminates and keeps the invariant: consumed is landed plus held, and every log left is left for the record that starts the next one, which it had no room for. It fails only for a cascade of 256 source records each held over the one before, a base that is no record, 64 logs each left so, or something unreadable; it is stuck if and only if the next record stalls. |
| `RepackRun.Repack.Wake` | git/REPACK.c:459-482 | Every record waiting for the landed object lands, first come first, until none waits; if a lookup does not find the object and something waits, it is stuck instead. |
| `RepackRun.Repack.Next` | git/REPACK.c:691-745 | One source record is parsed exactly and then landed or held; one that does not parse ends the run with its own fault, a record that stalls ends it stuck, and no whole record lands well under a chain of 256. |
| `RepackRun.Repack.ReadAll` | git/REPACK.c:691-742 | All records are consumed in source order, none of them whole under a chain of 256; otherwise one does not parse and the status is its fault, is too large, stalls, or its landing failed for its own reasons. |
| `RepackRun.Repack.Finish` | git/REPACK.c:743-763 | The run ends well if and only if every record's chain of bases ends in something whole or in the shard; then every source object is indexed and reads back. |
| `RepackRun.Repack.Run` | git/REPACK.c:638-764 | An OK run lands every record, repeats included: each object is indexed under its own hash and type, never reads as another, and resolves if all its copies are within 256 deltas, does not if all are beyond, and exactly if it is within them where it comes once. Every log it left had no room for the record that starts the next. No pack with a record that stalls, a chain of 256 before what it is over, or a missing or circular base ends OK, and any other end has a cause in the source, the cap, or 64 logs the source fills. |
| `RepackScan.EmitAt` | git/PIDX.c:61-82 | One scan step resolves, hashes, emits and steps past a record, or fails as specified. |
| `RepackScan.ScanRef` | git/PIDX.c:84-106 | A whole-pack scan is bounded by the header's count, a tail scan runs to the end. |
| `RepackScan.ScanRow` | git/PIDX.c:61-82 | Scanning a record a run wrote emits its own row's entry if it resolves with the earlier logs' rows alone: always if it is within 256 deltas, never if it is beyond. |
| `RepackScan.ScanRows` | git/PIDX.c:84-106 | From any record on, whole-pack and tail scans agree; they succeed, with exactly the log's rows, if all are within 256 deltas, and not if one is beyond. |
| `RepackScan.SortedFinds` | git/PSCAN.cli.c:43-71 | The scanner's binary search over its sorted rows answers with a row of the prefix if it has one. |
| `RepackScan.ByLogKnows` | git/PSCAN.cli.c:93-104 | What has been scanned before a log are exactly the rows of the earlier logs. |
| `RepackScan.ScanShard` | git/PSCAN.cli.c:106-127 | Scanning the logs in file-id order finds exactly the indexed rows; it succeeds if all objects are within 256 deltas, not if one is beyond, and exactly then where each comes once. |
| `RepackLimits.RepackThenScan` | git/REPACK.c:638-764 | Repack into an empty shard, then scan: exactly the indexed rows, which are the landed source records, each object preserved; the scan succeeds if every pack object is within 256 deltas, not if one is beyond and, if no object comes twice, exactly if all are within. |
| `RepackLimits.UnknownTypeLost` | git/REPACK.c:502-538 | A record of type 0 or 5, written as it came like a whole object, resolves at no depth. |
| `RepackLimits.UnknownTypeLands` | git/REPACK.c:533-618 | An OK run lands a record of type 0 or 5 all the same and indexes a row for it, which nothing resolves. |
| `RepackLimits.LandsLost` | git/REPACK.c:533-618 | So for any record nothing reads: it lands, its row is there, and it does not resolve. |
| `RepackLimits.HalfLost` | git/PACK.c:285-310 | A delta whose stream or result is over half the scratch is such a record, whatever it is over. |
| `RepackLimits.DeepLost` | git/PACK.c:252 | The 257th delta's base resolves, so it can land, and it does not itself resolve. |
| `RepackState.NewestGood` | git/REPACK.c:154-165 | Answering with the newest row admitted is a lookup the run is proved for. |
| `RepackTwice.NewestShadows` | git/REPACK.c:154-165 | In a page scanned newest first a new row answers its own prefix and changes no other answer. |
| `RepackTwice.SecondCopy` | git/REPACK.c:596-618 | A second copy of an object, landed as a delta and answering its name, resolves at 256 hops if and only if neither its own citation nor its base's chain leads back to the object, it fits the scratch, and its base is within 255 deltas. |
| `RepackTwice.AvoidingReads` | git/REPACK.c:150-231 | A chain that never cites the re-indexed object reads on unchanged. |
| `RepackTwice.OthersAfter` | git/REPACK.c:150-231 | A record that read before resolves after it if its chain does not cite the object and was within 256; else if and only if the new copy is sound and its depth counted through the new copy is within 256. |
| `RepackLimits.TwiceLost` | git/REPACK.c:150-180 | An object sent again as a delta over an object that is itself a delta over it leaves both unreadable, the newest row winning. |
| `RepackLimits.OnceReads` | git/REPACK.c:150-180 | Before the second copy came, it read back. |
| `RepackLimits.SelfCitedLost` | git/REPACK.c:397-423 | An object sent again as a delta over itself, its base in an earlier log, cites its own name and is lost, though what it is over is whole. |
| `RepackLimits.DeepCopyLost` | git/REPACK.c:397-423 | A new copy 256 deltas deep resolves, but a record that read through the old whole one takes 257 and is lost. |
| `RepackLimits.OneLogReads` | git/REPACK.c:568-575 | The records that are lost in separate logs all read back in one: the verdict on mixed copies hangs on where the logs are cut. |
| `PuppyRuns.PutsReplace` | DOG.h:744-760 | Records may be replaced anywhere by others that stand for the same last writes. |
| `PuppyRuns.Tail` | DOG.c:628-640 | The memtable entry moves to the end and the runs keep their order. |
| `Puppies.Stack.NextKey` | DOG.c:582-592 | The next key is positive and past every run key. |
| `Puppies.Stack.FreeKey` | DOG.c:614-626 | The next key whose composed name is free is found, past every run key. |
| `Puppies.Stack.CreateAt` | DOG.c:722-764 | A run is written under any free key, below the memtable; a taken one is refused and nothing changes; the runs stay in order if and only if the key is past all of theirs. |
| `Puppies.Stack.DropAt` | DOG.c:782-799 | Exactly one run goes; every other entry and file stays. |
| `Puppies.Stack.ThinTail` | DOG.c:801-808 | Exactly the youngest runs go, the memtable stays. |
| `Puppies.Stack.MemOpen` | DOG.c:959-974 | A fresh memtable changes nothing the stack stands for. |
| `Puppies.Stack.Sync` | DOG.c:976-984 | Tidying leaves sorted data, never grows, and changes nothing the stack stands for. |
| `Puppies.Stack.Seal` | DOG.c:986-1005 | The collapsed memtable becomes the youngest run in place. |
| `Puppies.Stack.Collapse` | DOG.c:1007-1030 | The youngest runs become one and the older ones stay as they are; the stack stands for the same. |
| `Puppies.Stack.Ladder` | DOG.c:1032-1052 | For any policy the ladder ends where the policy finds nothing to merge, a settled stack is left alone, and the stack stands for the same. |
| `Puppies.Stack.Put` | DOG.c:1054-1072 | A put is one last write on the map the stack stands for and the memtable's newest record, through any flush and ladder, and with room left nothing else moves. |
| `Puppies.Stack.Commit` | DOG.c:1074-1083 | A commit leaves no memtable with anything in it, a settled ladder, and the same map. |
| `Puppies.Stack.AllRuns` | DOG.c:1085-1108 | The sources, oldest first and each sorted, merge to the map of all puts. |
| `UlogCodec.RowRoundTrip` | ULOG.c:28-130 | A written row drains to itself, whatever follows. |
| `UlogCodec.LineWire` | ULOG.c:68-130 | A line by its pieces: time, blanks, verb, blanks, and all the rest the URI; if one of them is no such thing the line is stepped over as a bad row. |
| `UlogCodec.DrainFirst` | ULOG.c:68-130 | Only the first line decides what drains. |
| `UlogLines.LinesMore` | ULOG.c:197-246 | One more row behind a log is one more row of the linear scan. |
| `UlogLines.LinesRow` | ULOG.c:702-710 | A row drains from its own offset. |
| `UlogLines.LinesCut` | ULOG.c:954-987 | The bytes before a row hold exactly the rows before it. |
| `Ulog.Log.AppendAt` | ULOG.c:659-684 | A row is appended and indexed unless its time does not advance, when nothing changes, or it does not fit the mapped room, when some of it is left behind the log and the index is as it was. |
| `Ulog.Log.Append` | ULOG.c:686-698 | The clamped time always advances, so the append lands whenever the row fits. |
| `Ulog.Log.Truncate` | ULOG.c:954-987 | Exactly the first rows stay, the rest is zeroed, the map keeps its size. |
| `Ulog.Log.Scan` | ULOG.c:179-246 | On OK the entries are exactly the rows of a linear scan in strictly increasing time; a sound log scans OK and unchanged. |
| `Ulog.Log.Rebuild` | ULOG.c:457-462 | Rebuilding a sound log always succeeds and yields the same index. |
| `Ulog.Log.Row` | ULOG.c:702-710 | The indexed row is the linear scan's row of that number. |
| `Ulog.Log.Seek` | ULOG.c:155-167 | The binary search splits the rows exactly at a time. |
| `Ulog.Log.Find` | ULOG.c:718-726 | Found exactly if a row has that time. |
| `Ulog.Log.FindLatest` | ULOG.c:728-743 | The newest row a test takes, or none does. |
| `Ulog.Log.FindVerb` | ULOG.c:745-762 | The newest row with a verb; the hash prefilter never loses one. |
| `Ulog.Log.Backscan` | ULOG.c:248-289 | The log ends behind its last complete line; what follows holds no line end. |
| `Ulog.PrefixNeverFresh` | ULOG.c:388-411 | A sidecar that stops short of the last row is never taken for fresh, whatever its sentinel says. |
| `Ulog.TornReopens` | ULOG.c:248-289 | Opened again, the log after a row cut short is exactly the log before it. |
| `Ulog.Log.Open` | ULOG.c:466-517 | Opened over any prefix sidecar, the log and its index tell the same rows. |
| `Brackets.Check` | tok/BRCT.c:110-130 | OK exactly when every bracket fits and is closed and no more than 256 are ever open. |
| `Brackets.Since` | tok/BRCT.c:117-126 | What is on the stack has been there, with all under it, since it was opened. |
| `Brackets.Partnered` | tok/BRCT.c:117-126 | In a balanced stream every bracket has the partner the stack pops. |
| `Brackets.PairOnce` | tok/BRCT.c:117-126 | A bracket has only one partner. |
| `Brackets.ExcessIs` | tok/BRCT.c:40-62 | Counting one kind tells how many of that kind the stack gained. |
| `Brackets.PairCount` | tok/BRCT.c:40-62 | Between a pair the count of its kind stays above zero and is zero right behind it. |
| `Brackets.Match` | tok/BRCT.c:31-67 | The first place where the kind's count is back to zero, forward or backward, or -1. |
| `Brackets.MatchIsPartner` | tok/BRCT.c:31-67 | In a balanced stream counting one kind finds the stack's own partner for every bracket and nothing else. |
| `Brackets.MatchBack` | tok/BRCT.c:31-67 | Matching a bracket's match comes back to it. |
| `Brackets.Depth` | tok/BRCT.c:132-144 | Where the stack is defined, the depth is its height. |
| `Brackets.Inner` | tok/BRCT.c:69-89 | The tightest pair i < at <= m, or none encloses. |
| `Brackets.Outer` | tok/BRCT.c:91-108 | The widest enclosing pair, found pair by pair. |

## Left out

- The TLV container, the packed commit records and the 'G' pool's byte layout of the weave: the four streams are sequences; the 24-bit offset cut and the word order are modelled.
- The 32-scope limit and the bit masks of a walk: one bool per scope.
- The tokenizer: any tokens with syntax tags and non-empty bytes; hunk rendering and diff windows (`CFOLDEmitDiff`, `CFOLDEmitFull`) are presentation.
- The weave assumes what its callers provide: distinct commit ids, ancestor lists naming the whole past, fewer than 2^24 commits and index entries.
- The batch sort, the pair sort and the wait-lane sort are one sorted arrangement each, not the quicksorts that produce it.
- Allocation, mapping, scratch and file errors throughout; BRAM and NEIL lists have a stated capacity, NEIL's lists no empty entry on entry.
- NEIL's scoring and kill heuristics are recursive functions of the same branches, not their loops; `NeilVerdict.KillsMeans` and `NeilTokens.BoundaryIs` say what they decide.
- The Myers diff itself: a parameter that gives a valid script or nothing, with some match when there is one.
- zlib is an exact inverse pair over self-delimiting streams; SHA-1 and its 60-bit prefix tell the objects at hand apart.
- Repack's input buffer refill, statistics and PACK summary rows: the stream is at hand as a whole. Which runs are merged when is a policy of the sizes; merging keeps all rows, the library's merge is not part of this model.
- NeilVerdict.CleanupLeaves: does not say which scripts with more than eight runs free of identifiers and line breaks outrun the eight sweeps; `NeilSweeps.SweepsRunOut` has some that do.
- NeilSettle.Shift: does not say exactly which scripts outrun the cap of n + 4 passes; those that do use up kept runs, none does whose kept runs hold identifiers, and `NeilRunsOut.RunsOut` is one that does. Whether the Myers diff can give one is not part of this model.
- Repack's on-demand mapping of old logs (64 of them) and the 20-bit hold slot.
- RepackScan.ScanShard: scans the logs of a run into an empty shard; appending behind an existing log is modelled by `Open`, but a whole-pack scan would stop at that log's own count.
- PatienceDiff.Bram: with less room than one entry a token it allows any region to be replaced wholesale, as the code does when the list fills up; the weave's own diff has that room.
- RepackRun.Repack.Run: ends with `Stuck` where the code's wake loop has no end. For an object whose copies are neither all within nor all beyond 256 deltas it says only that the row never resolves to anything else; there `RepackTwice.SecondCopy` and `RepackTwice.OthersAfter` decide one landing at a time.
- PACK streaming writers other than the object record, side-band and negotiation code.
- Puppies.Stack.CreateAt: run keys are unbounded, where the code has 60 bits and a reserved all-ones key.
- The puppy stack's read-only PAST half (`DOGPupOpenAside`), reopening a directory, crash states and released slots.
- Ulog.Log.AppendAt: how many bytes of a row that does not fit its encoders leave behind is a parameter; the RON and URI encoders are not part of this model.
- The event log's compaction, latest-per-key walks and k-way merge, and the 128-bit packing of index entries.
- Bracket tokens are read only where their first byte exists, as a tokenizer gives them.
