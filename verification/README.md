# FreeToken: checkpoint repair and replay benchmarks, modelled in Dafny

An FTW checkpoint is an index of named tensors placed in one byte space. The space is cut into
shard files. `scripts/ftw_hotfix.py` repairs such a checkpoint: it renames, drops and replaces
entries, writes new ones, and gives back the bytes no entry owns any more. It promises that an
interrupted run leaves a loadable checkpoint and that a rerun finishes the job. Most of this
project is about that promise. The rest covers the algorithmic parts of the benchmarks: the
session-serialising replay pool, the n-gram drafter and its simulation, proportional trimming,
the peak-concurrency sweep and the bank checksum.

`dafny verify dfyconfig.toml` checks everything.

## How the pieces fit

**Deleting bytes.** `Deletion` defines `Rank` (how many positions below p survive) and `Sift`
(what survives). A compaction step is one deletion over the whole byte space: every offset, of
an entry before, inside or behind the shard, straddling it or empty in a dead gap, goes to its
rank. `LiveRanges` and `InPlace` show that the code's ranges, prefix sums and bisection compute
exactly that. `Compaction` follows entries, bytes and shards through the deletion, `Grid` says
when entries stay aligned, and `Steps` puts this together for every layout the validator accepts:
a safe step keeps every entry's bytes, cleans exactly one shard, and changes neither where the
compaction is heading nor which of the other shards can be compacted safely.

**The disk.** `Disk` is a directory with its index and a ghost history holding every state an
interruption could leave: after each byte of a write, each index swap, each removal. `Safe`,
`Still` and `OnTheWay` speak about all states of that history.

**Writing and reading.** `ShardWriter` is the writer as a class; `Packing` is the layout it must
produce; `Reader` reads an entry back across shards.

**Repair.** `Plan` says what a repair computes for the list of entries and, in `Mended`, what that
means. `Growth` says where it must end: `GoalTensors` and `GoalSpace` are functions of the plan and
the starting checkpoint alone. `Repair` performs it in place or into a fresh directory.
`Outcomes.Rerun` is the promise of the tool's own description: after any number of interrupted
attempts, each cut off in any state it can be cut off in, one more run ends in exactly that goal.

**Meaning apart from computation.** Where a method is proved against a function that shares the
code's own helpers, a relation that uses none of them says what the result is: `Plan.Mended` for
the repaired listing, `Validate.Draws` for the reports, `Ngram.BestDraft`, `Replays` and
`TalliesUp` for drafts, turns and counters, `Trim.ShownInContext`, `EndsAlike` and `FairCut` for the
trimmed prompt, `Checksum.HashUpdate` for the hash, and `ReplayPool.ReadyIsFifo` for the queue.

**Four findings.**
- The validator does not ask for shard cuts on the ALIGN grid, nor for a file per shard.
  `ShardEdges.UnalignedEdgeBreaks` and `ShardEdges.SharedFileExample` are accepted layouts that
  compaction turns into rejected ones. `ShardEdges.RunSoundIff` gives the exact condition on the
  index a run starts from under which every index it writes is accepted, and
  `InPlace.CompactInPlace` asks no more than that of the layout. Every writer in the
  repository cuts on the grid and numbers its files, which is enough (`Steps.WellCutIsCompactable`).
- The pattern that finds shard files matches exactly five digits while the format writes more
  when it must. The number returned as free is in use exactly when 99999 and 100000 both are
  (`Numbering.TakenIffSixDigits`); all numbers from it on are free exactly when every number in
  use has five digits (`Numbering.FreeIffFiveDigits`).
- The old index still loads after a finished in-place repair exactly when no shard had to be
  rewritten (`Repair.RepairInPlace`), and that is exactly when the repaired index leaves no byte
  unowned. The guard under which the source keeps a copy of the old index implies it as long as no
  new tensor replaces an entry (`Growth.KeepsAllIsClean`).
- Weighting by position makes an exchange of two differing sampled bytes visible exactly when
  their places are not a multiple of 1,000,000,007 apart (`Checksum.ExchangeShows`); nearer ones
  always show (`Checksum.NearExchangeShows`).

**Preconditions the source relies on without checking them.** `WellCut`: shard offsets and the
total are multiples of ALIGN, and no two shards share a file. The shard limit is a positive
multiple of ALIGN (`python/freetoken/checkpoint/ftw.py`, line 136). Names stay distinct after
renaming. They are `requires` clauses of the members that need them and of no others.

## Model

| member | source | states |
|---|---|---|
| Layout.AlignUp | python/freetoken/checkpoint/ftw.py:89-90 | the least ALIGN multiple not below n |
| Validate.ValidateFtw | scripts/ftw_hotfix.py:297-345 | no problem is reported if and only if the shards tile the space and are present at full length, all entries are aligned, in range, distinctly named, of the stated size and loadable as the model declares them, and all padded blocks are pairwise disjoint |
| Validate.CheckShards | scripts/ftw_hotfix.py:300-311 | the shard pass reports nothing if and only if the sorted shards tile [0, total) and every file has its full length |
| Validate.CheckEntries | scripts/ftw_hotfix.py:312-340 | a problem is in the report if and only if some entry draws it: a name seen before, an unknown dtype, and, if the dtype is known, a byte count other than the product of the shape times the element size, an offset off the grid or negative, an end past the last shard, and, for a weight the model declares under its name after renaming and no repair converts, another shape, or another dtype when not both can be cast; so an empty report means that nothing of the kind is wrong |
| Validate.CheckEntry | scripts/ftw_hotfix.py:313-340 | the reports of one entry, no more and no fewer |
| Validate.DrawsNone | scripts/ftw_hotfix.py:312-340 | an entry draws no report exactly when its name is new, its dtype known, its byte count right, its place aligned and in range, and the model can load it |
| Validate.ProductSplits | scripts/ftw_hotfix.py:91-92 | the element count of a shape is the product of the counts of its two parts, wherever it is split |
| Validate.CheckOverlaps | scripts/ftw_hotfix.py:341-344 | comparing sorted neighbours finds an overlap if and only if some two blocks overlap |
| Validate.NeighboursIffPairs | scripts/ftw_hotfix.py:341-344 | in a sorted list of blocks, neighbours are in order exactly when all pairs are disjoint, empty blocks included |
| Reader.EntryChunks | scripts/ftw_hotfix.py:427-445 | a successful read has the entry's length and each byte comes from a shard claiming that position; on a tiled, complete layout it always succeeds and returns the entry's part of the byte space, in pieces of at most 64 MiB |
| Reader.ReadFrom | scripts/ftw_hotfix.py:434-444 | the inner loop succeeds exactly when the file is long enough and then returns the requested slice |
| Repair.ListingReads | scripts/ftw_hotfix.py:427-450 | what the listing of a sound checkpoint says of an entry is what reading that entry returns |
| Packing.ListedReads | scripts/ftw_hotfix.py:390-404 | entries over packed payloads are aligned, in range, and hold their payload |
| Packing.ListedSeparated | scripts/ftw_hotfix.py:390-404 | their padded blocks are pairwise disjoint |
| Packing.ListedOwns | scripts/ftw_hotfix.py:390-404 | every byte written, padding included, belongs to some entry's block |
| Packing.PackedAt | scripts/ftw_hotfix.py:396-404 | payload i is found where the padded payloads before it end |
| Packing.PaddingIsZero | scripts/ftw_hotfix.py:402-404 | between a payload and the next block there are only zeros |
| ShardWriter.ShardWriter.constructor | scripts/ftw_hotfix.py:352-360 | a new writer satisfies the invariant with no shards and no entries |
| ShardWriter.ShardWriter.Roll | scripts/ftw_hotfix.py:365-377 | the current shard is finished and an empty one opened at the end of the space; all bytes stay where the shards say |
| ShardWriter.ShardWriter.Write | scripts/ftw_hotfix.py:379-388 | the data is appended to the space over as many shards as needed, the first one opened if there is none, none above the limit; data that fits stays in the current shard; only new shard files are touched at any byte of the way |
| ShardWriter.ShardWriter.MakeRoom | scripts/ftw_hotfix.py:391-394 | a new, empty shard is opened if and only if none is open or the entry would fit a shard but not what is left of this one; nothing is written; afterwards an entry that fits a shard fits the current one |
| ShardWriter.ShardWriter.Add | scripts/ftw_hotfix.py:390-404 | succeeds exactly when the start is aligned and the chunks have the announced length, for any split into chunks; then the payload follows the earlier ones padded to ALIGN, every entry that fits one shard lies in one, and as long as the writer runs every shard was begun because the one before was full or had no room for the entry that begins it |
| Packing.ThriftyFills | scripts/ftw_hotfix.py:379-388 | writing on keeps that, for a shard begun in the middle of an entry follows a full one |
| Packing.ThriftyRoll | scripts/ftw_hotfix.py:391-394 | a shard begun early is begun for an entry that did not fit the one before |
| ShardWriter.ShardWriter.Close | scripts/ftw_hotfix.py:411-414 | the shard list is complete and the invariant kept |
| ShardWriter.ShardWriter.PutFails | scripts/ftw_hotfix.py:385 | a write that fails after any number of its bytes leaves a writer that can be aborted |
| ShardWriter.ShardWriter.Abort | scripts/ftw_hotfix.py:416-424 | also after a failed write, every file the writer made is gone and every other file is untouched, at each step of the removal |
| ShardWriter.FlowPut | scripts/ftw_hotfix.py:384-388 | appending to the open shard keeps the tiling, the limit, the ALIGN cuts and the rule that only new files are touched, for every torn write |
| ShardWriter.FlowRoll | scripts/ftw_hotfix.py:372-377 | so does opening a new shard |
| Repair.WrittenReadsBack | scripts/ftw_hotfix.py:379-445 | whatever was written to a fresh directory, in whatever chunks and for every positive limit, reads back exactly |
| Repair.FreshIsClean | scripts/ftw_hotfix.py:963-980 | a closed fresh directory is a sound checkpoint listing exactly what was added, with no dirty shard |
| LiveRanges.LiveRanges | scripts/ftw_hotfix.py:485-500 | the ranges are non-empty, ascending, separated, and cover exactly the owned bytes of [s0, s1) |
| Intervals.Merge | scripts/ftw_hotfix.py:494-500 | merging sorted ranges covers the same positions by ascending ranges with gaps between them |
| LiveRanges.RangesSum | scripts/ftw_hotfix.py:509 | the range lengths add up to the shard's owned byte count |
| LiveRanges.RangesRank | scripts/ftw_hotfix.py:545-548 | they are also the distance of the shard's two ends among the surviving bytes |
| LiveRanges.DirtyShards | scripts/ftw_hotfix.py:503-512 | for any index, exactly the shards that hold an unowned byte, in offset order, each with its owned ranges and count |
| LiveRanges.BisectRight | scripts/ftw_hotfix.py:551 | everything before the result is at most x, everything from it on is above x |
| LiveRanges.PrefixRanks | scripts/ftw_hotfix.py:545-548 | the prefix sums are the ranks of both ends of every dead gap |
| LiveRanges.RemapIsRank | scripts/ftw_hotfix.py:550-555 | the lookup is the rank among surviving bytes, also for offsets in a dead gap |
| InPlace.NewOffsetIsRank | scripts/ftw_hotfix.py:557-564 | before, inside and behind the shard, the new offset of an entry is its rank |
| InPlace.MovedTensors | scripts/ftw_hotfix.py:545-564 | the new tensor list moves every entry to its rank and changes nothing else |
| InPlace.MovedShards | scripts/ftw_hotfix.py:565-573 | unless another shard uses the same file, the new shard list moves every shard to the ranks of its edges, and the rewritten shard gets the new file or disappears |
| InPlace.NewShardsRefile | scripts/ftw_hotfix.py:565-573 | the list the loop builds by file name and offset comparison is the old one with every edge at its rank |
| InPlace.GatherIsBody | scripts/ftw_hotfix.py:531-540 | the copied ranges end to end are the surviving part of the shard |
| InPlace.CopyRanges | scripts/ftw_hotfix.py:530-542 | the new file holds the ranges end to end, and at every byte of the way only that file differs |
| Deletion.RankComposes | scripts/ftw_hotfix.py:520-578 | deleting in two rounds moves every position where one deletion of everything would |
| Deletion.SiftComposes | scripts/ftw_hotfix.py:520-578 | and leaves the same bytes |
| Deletion.SiftSlice | scripts/ftw_hotfix.py:531-540 | a run of surviving bytes is found unchanged between its ranks |
| Compaction.ListingMoves | scripts/ftw_hotfix.py:557-564 | every entry reads the same bytes before and after the move |
| Compaction.LiveMoves | scripts/ftw_hotfix.py:557-564 | a surviving byte is owned after the move exactly when it was owned before |
| Compaction.SeparatedMoves | scripts/ftw_hotfix.py:557-564 | padded blocks stay pairwise disjoint |
| Grid.MovedUpToGrid | scripts/ftw_hotfix.py:557-564 | every moved entry stays in range, so the moved table is well placed exactly when every entry lands on the grid |
| Grid.PagesIffSafeCuts | scripts/ftw_hotfix.py:550-564 | every entry lands on the grid exactly when entries behind the shard see a multiple of ALIGN dropped and entries starting inside see the shard start on the grid or with an owned byte |
| Compaction.StoredMoves | scripts/ftw_hotfix.py:565-573 | the new files, cut at the new edges, hold exactly the sifted space |
| Compaction.CutsMove | scripts/ftw_hotfix.py:565-574 | shard edges and the total stay multiples of ALIGN and files stay distinct |
| Compaction.StepShard | scripts/ftw_hotfix.py:565-574 | the rewritten shard keeps exactly its owned bytes and is fully owned; every other shard keeps its size and its owned count |
| Steps.StepSoundIff | scripts/ftw_hotfix.py:545-575 | for every layout the validator accepts, the result of a step is accepted if and only if the cuts are safe in the sense of Grid.PagesIffSafeCuts |
| Steps.StepSafe | scripts/ftw_hotfix.py:520-575 | after the index swap of a safe step every entry keeps its bytes, and just the dead bytes of the chosen shard are gone |
| Steps.StepWellCut | scripts/ftw_hotfix.py:565-574 | a step keeps cuts on the grid and shard files distinct |
| Steps.StepProgress | scripts/ftw_hotfix.py:577-578 | the number of dirty shards falls by exactly one |
| Steps.StepConverges | scripts/ftw_hotfix.py:520-578 | no safe step changes the final tensors or the final byte space of the compaction |
| Steps.CleanIsFinal | scripts/ftw_hotfix.py:517-520 | with no dirty shard nothing is unowned and the checkpoint is its own final form |
| Steps.CutsCarry | scripts/ftw_hotfix.py:557-574 | a safe step on one shard does not change whether another dirty shard is cut safely, zero-byte entries that come to lie on its edge included |
| Steps.StepCompactableIff | scripts/ftw_hotfix.py:520-578 | after a safe step every dirty shard can be compacted safely if and only if that was so before |
| Steps.WellCutIsCompactable | scripts/ftw_hotfix.py:515-520 | with cuts on the grid and a file per shard every dirty shard can be compacted safely |
| InPlace.StepFaithful | scripts/ftw_hotfix.py:574-575 | one safe step leaves a state faithful to the one before: accepted, same listing, same destination, and as safe to compact |
| InPlace.UnreferencedIsIdle | scripts/ftw_hotfix.py:18-21 | files the index does not name do not matter to the checkpoint |
| Disk.Disk.Swap | scripts/ftw_hotfix.py:465-473 | the index changes in one step, the files do not |
| Disk.Disk.Append | scripts/ftw_hotfix.py:538 | a write may be cut off after any of its bytes, and each such state is recorded |
| InPlace.CompactShard | scripts/ftw_hotfix.py:521-577 | one pass installs the compacted index and removes the old file; every state on the way is faithful to the start and uses at most one new number |
| InPlace.StepLeavesNoStray | scripts/ftw_hotfix.py:521-576 | a pass leaves no shard file behind that the index does not name, and goes on naming those it named |
| InPlace.CompactInPlace | scripts/ftw_hotfix.py:515-580 | whenever every dirty shard can be compacted safely it ends after one pass per dirty shard, leaves none, produces the one-shot deletion of every unowned byte, leaves no unnamed file of its own, and every disk state on the way is an accepted checkpoint with the same entries |
| InPlace.LostStays | scripts/ftw_hotfix.py:576 | the file of a rewritten shard is gone for good |
| ShardEdges.SharedFileBreaks | scripts/ftw_hotfix.py:565-574 | if another shard uses the dirty shard's file, the list written does not tile the space |
| ShardEdges.SharedFileExample | scripts/ftw_hotfix.py:300-311 | a concrete accepted layout with two shards in one file that one step makes unacceptable |
| ShardEdges.UnalignedEdgeBreaks | scripts/ftw_hotfix.py:300-327 | a concrete accepted layout with a cut off the grid that one step makes unacceptable |
| ShardEdges.WrittenSoundIff | scripts/ftw_hotfix.py:521-576 | for every accepted layout and dirty shard, the index a pass writes is accepted if and only if no other shard uses the file and the cuts are safe |
| ShardEdges.PassKeeps | scripts/ftw_hotfix.py:521-578 | a pass with an accepted result takes one dirty shard off and neither makes nor mends an unsafe one |
| ShardEdges.RunSoundIff | scripts/ftw_hotfix.py:515-580 | every index a whole run writes is accepted if and only if every dirty shard of the index it starts from has a file of its own and safe cuts |
| ShardEdges.RunLength | scripts/ftw_hotfix.py:520-578 | a run makes at most one pass for each shard dirty at the start |
| Numbering.ShardNumbers | scripts/ftw_hotfix.py:476-481 | the number follows the largest five-digit one on disk or in the index; the orphans are exactly the five-digit shard files the index does not use, each once, in ascending order of their numbers |
| Numbering.FreeIffFiveDigits | scripts/ftw_hotfix.py:476-481 | every number from the result on is free exactly when all numbers in use have five digits |
| Numbering.TakenIffSixDigits | scripts/ftw_hotfix.py:476-481 | the number returned is itself in use exactly when 99999 and 100000 both are |
| Numbering.SixDigitsCollide | scripts/ftw_hotfix.py:60 | with shards 99999 and 100000 in use the number called free is in use |
| Plan.RepairedMends | scripts/ftw_hotfix.py:902-909 | the repaired listing is: the old items that stay, in their old order, each with its bytes and data, a weight with a rename under its new name and everything else unchanged, then the new tensors in plan order, and nothing else; exactly those weights do not stay whose name after renaming is dropped or that of a new tensor |
| Plan.MendedKeeps | scripts/ftw_hotfix.py:902-909 | so an old item that is not a weight is there unchanged, and a weight whose name after renaming is free is there under that name |
| Plan.MendedDrops | scripts/ftw_hotfix.py:902-909 | and every weight carried over has a free name and comes from an old item |
| Plan.KeptAreSelected | scripts/ftw_hotfix.py:902-909 | the kept entries, read in the old space, are those items |
| Plan.KeptListing | scripts/ftw_hotfix.py:902-909 | the kept entries, read in the old space, are the kept items of the old listing under their new names |
| Repair.CopyKept | scripts/ftw_hotfix.py:965-968 | the writer holds exactly the items that stay, with their original bytes, under their new names, in index order |
| Repair.WriteNew | scripts/ftw_hotfix.py:936-954 | the new tensors follow, each with its bytes, unless the source fails before delivering all of them |
| Repair.WriteOut | scripts/ftw_hotfix.py:963-980 | the streamed shards hold the repaired items, padded, in order; with an aligned limit all cuts are aligned |
| Repair.RepairOut | scripts/ftw_hotfix.py:959-985 | the fresh directory is sound; it lists the old items that stay, in order and under their new names, then the new tensors, and nothing else; it has no dead byte, its shards are numbered from 0 and within the limit, a small entry lies in one shard, and no shard is begun without need; when a new tensor cannot be had, nothing is left in it |
| Repair.RemoveOrphans | scripts/ftw_hotfix.py:987-988 | just the orphans go, and index and bytes are the same after each removal |
| Repair.AppendNew | scripts/ftw_hotfix.py:991-1001 | new tensors are laid down behind the old space under unused numbers; until the swap every state has the old index over the old bytes; when a tensor cannot be had all new files are gone again |
| Growth.GrownLoadable | scripts/ftw_hotfix.py:1002-1012 | swapping to the grown index gives a loadable checkpoint with the repaired listing |
| Growth.GrownIsAfter | scripts/ftw_hotfix.py:1002-1012 | its tensor table and byte space, and so what it compacts to, are functions of the plan and the old checkpoint |
| Growth.CleanIffNoDead | scripts/ftw_hotfix.py:503-512 | no shard is dirty exactly when no byte is unowned |
| Growth.KeepsAllIsClean | scripts/ftw_hotfix.py:1006-1010 | when nothing was unowned and every entry is kept, the repaired checkpoint has nothing to compact |
| Repair.Grow | scripts/ftw_hotfix.py:989-1013 | append and swap as a whole: every state is the old checkpoint or a repaired one on its way to the goal, and in every state the old index still loads the old entries |
| Repair.GrownTidy | scripts/ftw_hotfix.py:990-1012 | the files an append makes are those of the shards it adds |
| Repair.LostEndsRollback | scripts/ftw_hotfix.py:1021-1024 | once a shard has been rewritten the old index does not load any more |
| Repair.RepairInPlace | scripts/ftw_hotfix.py:986-1024 | after every disk step the directory holds the old index over the old bytes or a repaired checkpoint that leads to the goal; at the end it is at the goal with no dead byte and lists the old items that stay, in order and under their new names, then the new tensors, and nothing else; if there was anything to do, every five-digit shard file left is one the index uses; without a needed tensor it is as it was; the old index stays usable exactly when no shard was rewritten; shard numbers are bounded |
| Outcomes.RerunConverges | scripts/ftw_hotfix.py:18-21 | compaction interrupted anywhere and run again ends with the offsets, bytes and listing of the uninterrupted run, and nothing unowned |
| Outcomes.CutOffIsReached | scripts/ftw_hotfix.py:18-21 | a run started in a state attempts can reach, with what is left to do, can only be cut off in such a state |
| Outcomes.AttemptsReach | scripts/ftw_hotfix.py:18-21 | so any number of interrupted attempts leaves the old index over the old bytes or a repaired checkpoint that leads to the goal |
| Outcomes.ReachedRestarts | scripts/ftw_hotfix.py:18-21 | every state reached meets what another run asks of layout, limit, plan and names, before the swap and after it |
| Outcomes.SameGoal | scripts/ftw_hotfix.py:18-21 | with what is left to do, a state reached has the goal of the start |
| Outcomes.Rerun | scripts/ftw_hotfix.py:18-21 | a run after any number of interrupted ones ends with the tensor table, the bytes, the listing and the total of the repair that was never interrupted, no dead byte and, if it had anything to do, no unused shard file; wherever it is interrupted itself the directory loads and the same holds of the next run |
| Outcomes.CleanTotal | scripts/ftw_hotfix.py:503-512 | a clean checkpoint is exactly as long as the padded sizes of its entries |
| Outcomes.RoutesAgree | scripts/ftw_hotfix.py:959-1022 | the fresh copy and the in-place repair give the same entries with the same bytes and the same total, the sum of the padded sizes |
| ReplayPool.StepKeeps | benchmarks/trace_replay.py:411-450 | every action of submitter or worker keeps the invariant of queues, busy set, held turns and logs |
| ReplayPool.RunKeepsInv | benchmarks/trace_replay.py:395-492 | the invariant holds in every state of every interleaving |
| ReplayPool.TurnsNeverOverlap | benchmarks/trace_replay.py:383-387 | no two workers ever hold turns of one session |
| ReplayPool.IssueWaitsForPredecessors | benchmarks/trace_replay.py:411-450 | when a turn is taken for issue every earlier turn of its session has finished with a result |
| ReplayPool.IssueOrder | benchmarks/trace_replay.py:411-450 | a session's turns are issued in trace order, each at most once |
| ReplayPool.StepAppends | benchmarks/trace_replay.py:411-450 | every action appends to what was issued or is ready, and to the results |
| ReplayPool.ReadyIsFifo | benchmarks/trace_replay.py:403-425 | over whole runs the ready queue is first in, first out: what was issued or ready at one time is, in its order, the beginning of what was issued or is ready at any later time |
| ReplayPool.FirstReadyFirstIssued | benchmarks/trace_replay.py:403-425 | of two turns the one that became ready first is issued first |
| ReplayPool.SessionlessInOrder | benchmarks/trace_replay.py:412-415 | a trace without sessions is issued in its own order |
| ReplayPool.TurnsConserved | benchmarks/trace_replay.py:395-492 | every turn is in exactly one of the pool's structures or finished, and no result appears twice |
| ReplayPool.OneEngaged | benchmarks/trace_replay.py:411-450 | no two turns of a session are both in hand, ready or at a worker |
| ReplayPool.HeldBehindActive | benchmarks/trace_replay.py:416-419 | a held turn has its session busy with exactly one turn in hand, ready or at a worker, and that one is earlier |
| ReplayPool.FinishedIsEmpty | benchmarks/trace_replay.py:439-450 | when the count reaches zero every turn has its result and nothing is queued, held, busy or running |
| ReplayPool.NeverWedged | benchmarks/trace_replay.py:423-450 | until then some action is possible |
| ReplayPool.StaysEnabled | benchmarks/trace_replay.py:411-450 | no thread can stop another, except a worker that takes the only ready turn before another worker |
| ReplayPool.RunsEnd | benchmarks/trace_replay.py:469-492 | no interleaving is longer than five actions a turn |
| ReplayPool.Replayer.constructor | benchmarks/trace_replay.py:395-407 | a new pool is in the initial state |
| ReplayPool.Replayer.SubmitTurn | benchmarks/trace_replay.py:411-420 | refines the submit action: queue, hold behind a busy session, or mark busy |
| ReplayPool.Replayer.PutTurn | benchmarks/trace_replay.py:421 | refines the queueing at the back that follows outside the lock |
| ReplayPool.Replayer.GetTurn | benchmarks/trace_replay.py:425-430 | refines taking the oldest ready turn |
| ReplayPool.Replayer.ReportTurn | benchmarks/trace_replay.py:431-437 | refines recording the answer or the error that replaced it |
| ReplayPool.Replayer.EndTurn | benchmarks/trace_replay.py:438-450 | refines waking the first held turn or freeing the session, and counting down |
| Ngram.LatestIsMostRecent | benchmarks/ngram_spec_analysis.py:46-60 | the reference lookup finds an occurrence before the bound exactly when there is one, and none is later |
| Ngram.NgramDrafter.constructor | benchmarks/ngram_spec_analysis.py:41-44 | lengths are sorted longest first and nothing is indexed |
| Ngram.NgramDrafter.Observe | benchmarks/ngram_spec_analysis.py:46-60 | afterwards the index maps each n-gram to its latest end strictly before the bound reached, and holds nothing else, save windows cut short behind the end of the transcript; going back changes nothing |
| Ngram.NgramDrafter.Draft | benchmarks/ngram_spec_analysis.py:62-73 | the incremental drafter answers like the reference drafter that searches the transcript from scratch; right after observing up to the position, the answer is what followed the most recent earlier occurrence of the longest listed length that has one, cut at k tokens or at the end, and empty when none has |
| Ngram.DraftIsLongestMostRecent | benchmarks/ngram_spec_analysis.py:62-73 | the reference draft is, token by token and in its length, what followed the most recent earlier occurrence of the longest listed length that has one, and is empty when none has |
| Ngram.CountConfirmed | benchmarks/ngram_spec_analysis.py:104-108 | the accepted count is the longest prefix of the draft that the transcript confirms |
| Ngram.StepAt | benchmarks/ngram_spec_analysis.py:96-121 | one loop turn with the incremental drafter is one reference step |
| Ngram.Simulate | benchmarks/ngram_spec_analysis.py:76-131 | the counters and histograms are those of the reference decode, and of a chain of turns from the start to the end of the transcript: each drafts the best draft for its length, accepts the longest prefix the transcript confirms, emits that and one token more unless the transcript ends, and hands on the next draft length; each counter is the number or the sum its name says over these turns |
| Ngram.AdvanceTurns | benchmarks/ngram_spec_analysis.py:96-121 | a reference step is such a turn; when adaptive, the draft length grows by 2 up to k_max after full acceptance and becomes accepted + 1 otherwise, and else it stays |
| Ngram.DecodeReplays | benchmarks/ngram_spec_analysis.py:95-121 | the reference decode is such a chain of turns |
| Ngram.TallyCounts | benchmarks/ngram_spec_analysis.py:109-119 | drafted and plain count the steps, accepted, proposed and generated sum up accepted tokens, draft lengths and emitted tokens, width sums up draft lengths and one each, and each histogram has for each number how often it occurred and no entry that did not |
| Ngram.NextKBounded | benchmarks/ngram_spec_analysis.py:120-121 | the next draft length stays in [1, k_max] |
| Ngram.AdvanceOk | benchmarks/ngram_spec_analysis.py:96-121 | every step keeps the draft length in [1, k_max] when it starts there, drafts at most that much, and emits accepted + 1 tokens unless the transcript ends |
| Ngram.DecodeEmitsAll | benchmarks/ngram_spec_analysis.py:95-119 | exactly the tokens after the start are emitted |
| Ngram.TallyHistograms | benchmarks/ngram_spec_analysis.py:109-119 | histogram-weighted sums plus plain steps give the emitted tokens, and widths sum to the verify width |
| Ngram.TallyMargins | benchmarks/ngram_spec_analysis.py:109-119 | width is drafted tokens plus drafted steps, and steps + accepted - 1 <= generated <= steps + accepted |
| Ngram.SimulationConserves | benchmarks/ngram_spec_analysis.py:76-131 | all of these hold of every simulation, for every transcript, start, length list and k_max |
| Ngram.FlatEqualsTable | benchmarks/ngram_spec_analysis.py:149-159 | with cost 1 + c(m-1) the table form and the closed form agree |
| Ngram.SpeedupIs | benchmarks/ngram_spec_analysis.py:159-169 | speedup times total cost is the number of generated tokens; with no cost the speedup is 0 |
| Ngram.WhenItPays | benchmarks/ngram_spec_analysis.py:159-170 | for c >= 0 the speedup is below 1 when accepted < c * drafted, and at least 1 when accepted - 1 >= c * drafted |
| Trim.NeedleIndex | benchmarks/bench_long_context.py:139-144 | the first occurrence of the needle, or none exists |
| Trim.MergedProtected | benchmarks/bench_long_context.py:177-194 | at most three ascending spans, from 0 to the end, that cover just the beginning, the needle with its context, and the tail |
| Trim.Gaps | benchmarks/bench_long_context.py:195-202 | the gaps are exactly the uncovered positions, in order |
| Shares.RemainderSmall | benchmarks/bench_long_context.py:214-215 | rounding down leaves over less than one token a gap |
| Shares.HandOut | benchmarks/bench_long_context.py:215-222 | the remainder is handed out completely within one pass over the gaps, and no gap gives more than it has |
| Shares.Apportion | benchmarks/bench_long_context.py:214-222 | the amounts add up to the removal; each is the proportional share, less at most one unit by rounding and plus less than the number of gaps |
| Trim.DeleteCuts | benchmarks/bench_long_context.py:223-227 | deleting from the last cut to the first removes exactly the planned positions |
| Trim.CutGaps | benchmarks/bench_long_context.py:195-227 | fails exactly when more must go than may; else just the first tokens of each gap go, its proportional share to within one |
| Trim.CutKeeps | benchmarks/bench_long_context.py:174-187 | a cut that spares the protected positions leaves needle, context, beginning and tail as they were |
| Trim.TrimFiller | benchmarks/bench_long_context.py:147-227 | each error exactly when it applies; otherwise the result has exactly the target length, the first occurrence of the needle stands in it with up to `context` tokens of its surroundings on each side, it begins and ends like the original, and each gap loses its proportional share to within one token from its front |
| Peak.NetIsInFlight | benchmarks/trace_to_profile.py:81-85 | arrivals less finishes up to an instant are the half-open intervals covering it, less the requests that end before they start and have it in between |
| Peak.TotalsAreReached | benchmarks/trace_to_profile.py:86-90 | every positive running total of the sorted events is at most the number in flight at some instant, ties included |
| Peak.Sweep | benchmarks/trace_to_profile.py:87-90 | the largest prefix sum of the events |
| Peak.PeakConcurrency | benchmarks/trace_to_profile.py:73-91 | the larger of 1 and the largest number of requests in flight at one instant, for all requests without a negative duration; with negative durations those in between are taken off |
| Checksum.PartSum | benchmarks/bench_load_weight_generic.py:123-131 | a part contributes what the whole-sequence hash gains over it, and the sum fits in 64 bits for every bank size |
| Checksum.BankHash | benchmarks/bench_load_weight_generic.py:119-132 | the hash is one position-weighted strided sum over the whole sequence, however it is cut into parts |
| Checksum.HashUpdate | benchmarks/bench_load_weight_generic.py:126-130 | changing a byte changes the hash by the difference times position % 1,000,000,007 + 1 if the position is sampled, and not at all otherwise |
| Checksum.HashZeros | benchmarks/bench_load_weight_generic.py:126-130 | a bank of zeros hashes to 0 |
| Checksum.ChangeShows | benchmarks/bench_load_weight_generic.py:114-115 | a changed byte changes the hash if and only if it is sampled |
| Checksum.ExchangeShows | benchmarks/bench_load_weight_generic.py:107-109 | an exchange of two sampled bytes changes the hash if and only if they differ and their places have different weights |
| Checksum.NearExchangeShows | benchmarks/bench_load_weight_generic.py:107-109 | two different sampled bytes less than 1,000,000,007 places apart cannot be exchanged unseen |
| Checksum.FewSamples | benchmarks/bench_load_weight_generic.py:121 | a bank of any size yields at most 2,000,000 samples |
| Checksum.EnoughSamples | benchmarks/bench_load_weight_generic.py:121 | a bank yields between min(size, 1,000,000) and 2,000,000 samples, and below 2,000,000 bytes every byte is one |
| Checksum.FirstMultiple | benchmarks/bench_load_weight_generic.py:124 | the first sample of a part is the first global multiple of the stride inside it |

## Left out

- Model construction, quantisation dialects, dequantisation, safetensors and HTTP reading, the vision tower and the PLE table: foreign libraries and I/O. New tensors are arbitrary byte payloads in `Plan`.
- Validate.ValidateFtw: what the model declares and what the repair renames or converts are given; sorted blocks are compared by offset and end, and the tie-break by name, which only affects the wording of messages, is not modelled.
- Disk.Disk.Swap: does not model fsync or directory durability; a rename is one atomic step and steps happen in program order.
- `read_entry` and `add_tensor`: they only convert between tensors and bytes.
- Reader.EntryChunks: returns all chunks at once where the source is a lazy generator; an entry in a compacted directory is read to its end before anything else happens there, so order is not affected.
- ShardWriter.ShardWriter.Write: a writer that was closed in the middle of an entry and written to again is excluded when the limit is aligned; `add` and `close` never do that.
- Repair.RepairOut: does not model side files and the PLE table, nor failures other than a new tensor that cannot be had.
- Repair.Grow: does not model the copy of the old index as a file, only when going back to that index is possible.
- Repair.RepairInPlace: does not model the counters and notes kept in the index, side files or the PLE branch; the shard limit is a positive multiple of ALIGN, numbers on disk have five digits and new names are distinct, as the source needs.
- Repair.AppendNew: a failure between two new tensors is modelled in place; one in the middle of a write by ShardWriter.ShardWriter.PutFails, after which ShardWriter.ShardWriter.Abort promises the same.
- Outcomes.Rerun: the plan a rerun derives from the index is a parameter, the same plan over the old index and an empty one after the swap; deriving it needs the model. Shard numbers on disk have five digits when it starts.
- File names are `Numbered(n)` for the shard format and `Named` for everything else, so two ways of writing one number do not occur.
- `dsv4_rename` and the planning of renames, drops and fetches: names after renaming are taken as distinct.
- Disk-space estimate, dry run, progress bars and messages.
- ReplayPool.NeverWedged: does not model the wait timeout of `run`, the stop sentinels, real time, or requests that never return. A session that is missing or empty is `None`.
- `FillerBook`, `PromptBuilder`, `fidelity`, `fit_scale`, `bucket_scenarios` and `_pct`: would only add easy members.
- Ngram.NgramDrafter.Observe: n-gram lengths are natural numbers.
- Ngram.FlatEqualsTable, Ngram.WhenItPays and Peak.PeakConcurrency: exact arithmetic over reals; floating-point rounding is not modelled. Sums over a histogram are taken in key order.
- `cost_from_routing` and the rates that `project` reports beside the speedup: one quotient or one linear map each.
- Trim.TrimFiller: works on token ids; the tokenizer and the check on the decoded text are not part of this model.
- Checksum.BankHash: one bank; the loop over bank names only repeats it.
- `scheduler_replay.py`, `spec_engage_replay.py`, GPU benches, kernel tuners, serving gates and needle grading are not part of this model.
