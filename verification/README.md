# Verified models of the sparse buffer, article verdicts and backup state

This project models three parts of the repository in Dafny and proves what they
promise over every run.

**The sparse buffer** (`internal/buffer`). A `Buffer` keeps an LRU cache of
1 MB blocks with exact dirty extents, a sparse disk file, two range sets and a
lock-free slot per block. `Extents`, `Blocks` and `Lru` prove the data
structures against plain sets and sequences. `BufferSpec` gives each locked
section as one function on an abstract state; `BufferSteps`, `DiscardSteps` and
`BufferRuns` prove that every interleaving of those steps, with write-throughs
and hole punches in flight on disjoint ranges, keeps the state in agreement with
a partial map from offset to byte; `BufferReads` proves that reads answer from
that map and when reopening the file does, `BufferAges` that the LRU list is in
order of use. `FastReads` sets the lock-free read, step by step, against the
pool's own punches. `BufferImpl` is the buffer on the heap: its methods are proved
to perform exactly those steps, and `BufferCalls` drives one such buffer through
the interleaved sections of any number of calls. `PoolImpl` puts any number of
buffers on one pool and proves the shared counters, the RAM budget and the disk
backstop; `PoolRuns` proves the budget for admission, eviction and block add as
separate steps, which `PoolActs` finds in the sections.

**Article verdicts** (`internal/nntp`, `internal/retry`). `Failover` is
ExecuteWithFailover with adversarial providers, counted connection slots and a
ghost record of what was really answered. `StatRouting`, `BatchStat` and
`StatPipeline` follow a STAT from the reply lines on the wire, through windows
and providers asked in a changing order, to the verdict on a message id.

**Backup state** (`pkg/backup`). `BackupRepo` (snapshot runs and mark-and-sweep
pruning), `Retention` (which snapshots a policy keeps), `DbSwap` (the staged
database swap) and `Mirror` (the off-box copy) are sequences of disk operations,
each of which may succeed, fail, or be the last before a crash; what is stated
of a method's end therefore holds at every crash point.

"Loose" bytes are those of a write-through in flight, or whose pwrite failed:
their contents are undefined until they are written or discarded again.

## What the proofs found

- Reopening a flushed file with its present ranges is faithful only if no present
  byte lies at or past TotalSize, because newBuffer truncates the file there
  (`internal/buffer/buffer.go:260-268`); `BufferReads.ReopenFaithful` is the exact
  condition.
- A live restored database can lose its hold marker before it is released: a
  second swap that fails removes the marker (`pkg/backup/dbrestore.go:218` and
  `:226`) although the first restore stays live. `DbSwap.HoldSurvivesIff` is the
  exact condition.
- A restore taken back from the command line leaves a marker without a verified
  stage when removing the marker fails and removing the stage does not
  (`pkg/backup/cli.go:163-164`), and a later start can then make a half-removed stage
  the live database; `DbSwap.UnstagingIsSound` says exactly when. The old database
  survives that too (`DbSwap.NothingIsLost`).
- Setting an age limit where there was none drops more (`Retention.FirstLimitDrops`).
  Raising one never does up to 106751 days; from 106752 the product wraps in 64 bits,
  there putting the cutoff in the future (`pkg/backup/repo_prune.go:114`).
  `Retention.AgeLimitIff` is the exact condition.
- The DATE check of a STAT pipeline cannot see replies lost together with as many
  stray ones added: `StatPipeline.WindowTruthfulIff` says exactly which losses and
  strays can give an id another's answer, and `StatPipeline.LostAndAddedDeceives` is
  the smallest case.
- The comment at `internal/buffer/buffer.go:478-484` says that publishing the read
  head first keeps a lock-free read safe from the pool's punch. A pass samples the
  head once, so it does not help against one already under way
  (`FastReads.SeekBackTooLate`); `FastReads.FastReadHoldsIff` is the exact condition.
- The comment at `internal/nntp/client.go:412-417` says a not-found means every
  provider answered not-found, or failed with something other than a timeout. That
  holds exactly when each provider still allowed at the end was asked, and always if
  no try failed to get a connection while one was allowed (`Failover.Call.Execute`);
  else a provider can go unasked and the article is reported missing all the same
  (`Failover.NeverAsked`).
- A run that wants only the two folder walks saves its early partial snapshot after
  the first of them, not before (`pkg/backup/jobs.go:140`).

## Model

| member | source | states |
|---|---|---|
| Extents.CanonicalUnique | internal/buffer/ranges.go:9-24 | a set of bytes has exactly one sorted, disjoint, non-adjacent list of extents, so a list that stays canonical is determined by the set it stands for |
| Extents.RangeSet.Insert | internal/buffer/ranges.go:50-92 | the set grows by exactly [off, off+length), stays canonical, and the result is the exact number of new bytes; an empty or negative length changes nothing |
| Extents.RangeSet.Remove | internal/buffer/ranges.go:97-139 | the set loses exactly [off, off+length), stays canonical, and the result is the exact number of bytes lost |
| Extents.RangeSet.Coverage | internal/buffer/ranges.go:31-45 | how many members lie in [lo, hi) |
| Extents.RangeSet.Present | internal/buffer/ranges.go:142-149 | true exactly when every offset of the range is a member, by one binary search |
| Extents.RangeSet.AnyPresent | internal/buffer/ranges.go:153-160 | true exactly when some offset of the range is a member |
| Extents.RangeSet.PresentRanges | internal/buffer/ranges.go:164-179 | a canonical list standing for exactly the members inside the range |
| Extents.RangeSet.TotalSize | internal/buffer/ranges.go:183-189 | the number of members |
| Extents.MergeAt | internal/buffer/ranges.go:64-91 | merging from position i on gives a canonical list of the old bytes plus the new extent |
| Extents.CutFrom | internal/buffer/ranges.go:108-138 | trimming, splitting and deleting extents gives a canonical list of the old bytes less the range |
| Blocks.AddDirty | internal/buffer/block.go:41-76 | a block's dirty list stays canonical and gains exactly the bytes written, touching neighbours merged |
| Blocks.RemoveDirty | internal/buffer/block.go:79-102 | a block's dirty list stays canonical and loses exactly the bytes discarded |
| BufferSteps.WriteIntoKeeps | internal/buffer/buffer.go:435-446 | a cached write keeps every representation in agreement, the buffer then standing for the map with the bytes written, and makes exactly those bytes dirty |
| BufferSteps.PublishKeeps | internal/buffer/buffer.go:409-430 | publishing a write-through whose bytes are in the file keeps the agreement, whether or not another operation made the block resident meanwhile |
| BufferSteps.LoadKeeps | internal/buffer/buffer.go:999-1026 | giving a block memory that may hold anything, and loading what the file has, changes nothing a reader can see |
| BufferSteps.DropKeeps | internal/buffer/buffer.go:1031-1041 | dropping a block without dirty bytes changes nothing a reader can see and sets its slot right |
| BufferSteps.FlushExtentKeeps | internal/buffer/buffer.go:1080-1094 | writing a dirty extent out, even when it stops part-way and is not noted, changes nothing a reader can see |
| BufferSteps.ClearDirtyKeeps | internal/buffer/buffer.go:1080-1094 | a block whose dirty bytes are all in the file may be marked clean |
| BufferSteps.PatchKeeps | internal/buffer/buffer.go:402-405 | a pwrite outside the lock into bytes nobody relies on disturbs nothing else |
| BufferSteps.DiscardKeeps | internal/buffer/buffer.go:600-655 | a discard erases exactly its range from the map, however blocks, dirty bytes, trackers and slots were spread over it |
| BufferSteps.PunchKeeps | internal/buffer/buffer.go:646-676 | punching a hole over bytes no longer present disturbs no present byte |
| DiscardSteps.SettleIsDiscard | internal/buffer/buffer.go:600-655 | discard's loops, in their order - block by block, then the trackers, then the two edge blocks, then the slots - add up to the one-step discard |
| BufferRuns.StepKeeps | internal/buffer/buffer.go:330-431 | each atomic step of a buffer keeps the agreement of blocks, dirty extents, LRU, ranges, onDisk, file and slots with the partial map, with any number of write-throughs and punches in flight on disjoint ranges |
| BufferRuns.RunKeeps | internal/buffer/buffer.go:330-431 | so does every run of steps, interleaved in any way |
| BufferRuns.CachedSectionIsRun | internal/buffer/buffer.go:376-396 | the cached write section (evict, flush, load, then write) is a run of those steps, whatever is in flight elsewhere |
| BufferReads.ReadsLastWritten | internal/buffer/buffer.go:454-571 | after every run, a read outside loose bytes succeeds exactly when all its bytes are present and returns those last written, whichever path wrote them and whichever serves the read |
| BufferReads.LockedReadCorrect | internal/buffer/buffer.go:516-571 | the locked path answers every read as the partial map does |
| BufferReads.FastReadSame | internal/buffer/buffer.go:487-511 | where every slot says fast, the bare pread returns what the locked path would, for any span of blocks |
| BufferReads.RepresentationsAgree | internal/buffer/buffer.go:646-664 | at every lock release present bytes are exactly onDisk or dirty, clean bytes in RAM equal the file, a slot is fast exactly when its block is absent from RAM and fully present, and the LRU lists each block once |
| BufferReads.SkippedPunchLosesNothing | internal/buffer/buffer.go:646-664 | a discard that finds nothing of its range on disk, and so skips the punch, leaves no byte of the range behind and changes no other |
| BufferReads.LatePunchErases | internal/buffer/buffer.go:646-676 | why a hole in flight must be kept clear: bytes of a discarded range written through again before the punch are present and the punch can destroy them |
| BufferReads.NoFailureNoTorn | internal/buffer/buffer.go:402-408 | bytes stay undefined only where a write-through's pwrite failed |
| BufferReads.OpenSound | internal/buffer/buffer.go:260-309 | a new buffer is sound exactly when its InitialRanges lie inside the file after newBuffer has truncated it |
| BufferReads.ReopenFaithful | internal/buffer/buffer.go:260-309 | after a successful Flush, reopening with the present ranges answers every read the same if and only if TotalSize is 0 or no present byte lies at or past it |
| BufferReads.ReopenLoses | internal/buffer/buffer.go:260-268 | a present byte past TotalSize reads differently after reopening |
| BufferCalls.Drive | internal/buffer/buffer.go:156-159 | on one heap buffer, the sections of any number of WriteAt, Discard, Flush and ReadAt calls, their pwrites and their hole punches in any order the caller contract allows: the buffer stays at a state of a run of BufferRuns, and each read outside loose bytes succeeds exactly when its bytes are present and returns those last written |
| BufferCalls.Traffic.FinishWrite | internal/buffer/buffer.go:330-355 | a WriteAt that got through all its regions, each by either path and with any sections of other calls in between, has all its bytes in the map, none of them loose, so that a read of its range returns what it wrote |
| BufferCalls.Traffic.CachedSection | internal/buffer/buffer.go:376-396 | the cached section of one region, whatever calls are under way elsewhere: the call goes on with the region written, or ends having changed nothing a reader can see |
| BufferCalls.Traffic.PwriteRegion | internal/buffer/buffer.go:402-408 | the pwrite of a region, with no lock held: nothing in the map changes, and if it fails the call ends with exactly the region loose |
| BufferCalls.Traffic.PublishRegion | internal/buffer/buffer.go:409-430 | the publish section of a region, whether or not somebody made its block resident meanwhile: the call goes on with the region written |
| BufferCalls.Traffic.DiscardSection | internal/buffer/buffer.go:600-655 | the locked section of a discard among other calls erases exactly its range, and leaves a hole to punch exactly when some of it was on disk |
| FastReads.FastReadHoldsIff | internal/buffer/buffer.go:472-511 | a lock-free read of present, whole bytes, its head published so that they lie inside the window, returns the map's bytes whatever else the contract allows meanwhile, if and only if no pass of the pool under way is still to discard some of them: one that sampled a head whose ceiling lies above the offset, or has listed such bytes and not come to them |
| FastReads.QuietReadHolds | internal/buffer/buffer.go:487-511 | with no such pass it does so even when each slot is loaded at a moment of its own and the pread comes later still |
| FastReads.SeekBackTooLate | internal/buffer/buffer.go:918-927 | publishing the head before the read comes too late for a pass that has sampled the old one: a read that keeps to the contract can return the contents of a hole |
| FastReads.SeekBackHappens | internal/buffer/buffer.go:918-937 | such a run, of a buffer with one block on disk |
| FastReads.FirmStays | internal/buffer/buffer.go:465-470 | no step of a caller, an eviction, a flush or a punch changes a byte it does not touch, in the map or, once there, in the file |
| Lru.LruList.PushFront | internal/buffer/buffer.go:1101-1111 | a new node becomes the head; prev and next stay mutually inverse and run through the map's blocks once each |
| Lru.LruList.Unlink | internal/buffer/buffer.go:1113-1125 | exactly that block leaves the list, every other keeps its place, both links of its neighbours are repaired |
| Lru.LruList.Touch | internal/buffer/buffer.go:1133-1139 | the block moves to the front and the others keep their order |
| Lru.LruList.OldestWhere | internal/buffer/buffer.go:1048-1056 | the walk from the tail finds the least recently written block that passes the test, or none does |
| Lru.LruList.Exact | internal/buffer/buffer.go:1101-1139 | the list names exactly the blocks of the map, without repeats |
| Lru.LruList.LinkOut | internal/buffer/buffer.go:1113-1125 | the four pointer cases of unlinking spell out the old list without the node |
| BufferImpl.Buffer.New | internal/buffer/buffer.go:227-315 | a fresh buffer holds the truncated file, its seeds (in any order, overlapping) and the matching slots, its ceiling is at least one block, and the pool is charged for exactly the seeded bytes; a negative TotalSize is refused |
| BufferImpl.Buffer.WriteAt | internal/buffer/buffer.go:330-355 | on success the buffer stands for the old map with the bytes written; on failure the first n bytes are written, only the rest of the range is undefined, and nothing else changes; a closed buffer refuses and changes nothing; without disk errors it succeeds; counters move with the buffer's own totals |
| BufferImpl.Buffer.WriteRegion | internal/buffer/buffer.go:359-431 | one region by either path: written, or failed with only its own bytes undefined; a closed buffer never reports success and keeps all but its file; without disk errors it succeeds |
| BufferImpl.Buffer.WriteCached | internal/buffer/buffer.go:376-396 | the cached section is some legal evictions, flushes and loads followed by exactly the write; a closed buffer is refused unchanged; without disk errors and with room for one block it succeeds |
| BufferImpl.Buffer.PublishWrite | internal/buffer/buffer.go:409-430 | the publish section does exactly the publish step, or refuses if Close won the race, leaving counters alone |
| BufferImpl.Buffer.Pwrite | internal/buffer/buffer.go:402-405 | a pwrite changes the file alone, by a prefix of the bytes |
| BufferImpl.Buffer.ReadAt | internal/buffer/buffer.go:454-571 | returns exactly what the state says the offsets read as, by pread where every slot is fast and region by region otherwise |
| BufferImpl.Buffer.ReadUnderLock | internal/buffer/buffer.go:516-571 | the loop over regions gives the locked answer for the whole span |
| BufferImpl.Buffer.AllSlotsFast | internal/buffer/buffer.go:487-495 | the lock-free scan is true exactly when every byte's block is marked fast |
| BufferImpl.Buffer.EvictOne | internal/buffer/buffer.go:1047-1066 | the last clean block in the list goes, or else the tail is flushed and goes; nothing goes if there is none or the flush fails; what is read does not change |
| BufferImpl.Buffer.PickVictim | internal/buffer/buffer.go:1047-1066 | the victim is the last clean block in the list, or the tail when every block is dirty; over a run that is the one used longest ago (BufferAges.VictimIsOldest) |
| BufferAges.MostRecentFirst | internal/buffer/buffer.go:1101-1139 | over every run that began with nothing cached, a block earlier in the list was loaded or written later, by the events of the run, than one behind it |
| BufferAges.VictimIsOldest | internal/buffer/buffer.go:1047-1066 | so eviction takes the clean block used longest ago, or, when every block is dirty, the block used longest ago of all |
| BufferAges.StepKeepsOrder | internal/buffer/buffer.go:1101-1139 | every step - load, write, publish, evict, discard - makes what it uses the youngest and keeps the rest in order |
| BufferImpl.Buffer.FlushBlock | internal/buffer/buffer.go:1080-1094 | each dirty extent goes to the file and is noted in turn; success leaves the block clean, failure leaves it dirty, and no other block changes |
| BufferImpl.Buffer.MakeRoom | internal/buffer/buffer.go:985-997 | the eviction loop terminates; afterwards there is room under the ceiling, and the pool is over budget only if this buffer has nothing left; without disk errors it always succeeds |
| BufferImpl.Buffer.Acquire | internal/buffer/buffer.go:972-1026 | the block becomes resident, the buffer stays under its own ceiling, without disk errors the pool stays within budget or the block is the buffer's only one, and nothing a reader can see changes |
| BufferImpl.Buffer.DropBlock | internal/buffer/buffer.go:1031-1041 | exactly the one block leaves map, list, RAM count and pool counter, and its slot is recomputed |
| BufferImpl.Buffer.MarkState | internal/buffer/buffer.go:1168-1182 | the slot says fast exactly when the block is not resident and fully present |
| BufferImpl.Buffer.DiscardLocked | internal/buffer/buffer.go:600-655 | the locked section performs exactly the one-step discard and returns the exact number of bytes removed and whether any was on disk |
| BufferImpl.Buffer.DiscardCall | internal/buffer/buffer.go:581-593 | the buffer stands for the map with the range erased; bad arguments and a closed buffer, whatever became of its blocks, change nothing |
| BufferImpl.Buffer.PunchBehindWindow | internal/buffer/buffer.go:683-716 | everything present below read head less back window goes and nothing else, exactly those bytes are reported to onEvict, the result counts them, and a buffer that stood for a map stands for it less those bytes; nothing happens to a closed one |
| BufferImpl.Buffer.Flush | internal/buffer/buffer.go:812-846 | a Flush that succeeds leaves no dirty byte and changes nothing a reader can see; without disk errors it succeeds |
| BufferImpl.Buffer.Close | internal/buffer/buffer.go:856-908 | the first Close gives up every block and subtracts exactly this buffer's share from both pool counters; a second changes nothing; without disk errors the file then holds every byte last written |
| BufferImpl.Buffer.GiveUp | internal/buffer/buffer.go:865-890 | Close's critical section: every block goes, both counters lose exactly what the buffer held, and without disk errors the file holds every byte last written |
| PoolRuns.BudgetHolds | internal/buffer/buffer.go:977-1018 | while no disk fails a write, in every interleaving of the steps of any number of buffers - admission check, own eviction and block add apart - pool RAM is at most the positive budget plus one block per buffer that holds or is about to add one, and no buffer exceeds its ceiling |
| PoolRuns.CountersExact | internal/buffer/pool.go:193-225 | over those runs both counters are the sums over the buffers, and a settled buffer moves neither again, whatever comes to it later; that the code's sections are such steps is PoolImpl.Drive |
| PoolRuns.StepKeepsPool | internal/buffer/pool.go:193-225 | each step of each buffer, admission check, own eviction and block add apart, keeps the budget bound and the sums |
| PoolRuns.ActingIsRun | internal/buffer/pool.go:193-225 | the acts of one buffer, wherever the others stand, are a run of the pool |
| PoolActs.AcquireActs | internal/buffer/buffer.go:972-1026 | acquireBlockLocked's evictions, and its load behind the admission check, are acts of PoolRuns in their order: one block dropped per eviction, then one added with room under ceiling and budget, or as the buffer's only one |
| PoolActs.WriteActs | internal/buffer/buffer.go:376-396 | so is the cached write section as a whole, with the lock, the closed check and what the trackers gained |
| PoolImpl.Drive | internal/buffer/pool.go:193-225 | on the heap, after any sequence of openings, sections and the two steps of Close over any number of buffers of a pool, races with Close included: memInUse is the sum of the bytes the buffers hold in RAM and diskInUse of the bytes present in them; and if no disk fails a write, RAM stays within one block per holding buffer of the budget and all that happened is a run of PoolRuns |
| PoolImpl.Act | internal/buffer/buffer.go:359-431 | every section of a buffer - cached write, pwrite, publish, discard, punch, flush - moves the pool's counters exactly with the buffer's own totals, and not at all once the buffer is closed; while no disk fails a write it is a sequence of PoolRuns' acts, each load behind its admission check |
| PoolImpl.Registry.Step | internal/buffer/buffer.go:359-431 | a section of one buffer leaves every other buffer of the pool as it was, the sums exact and the budget kept |
| PoolImpl.Registry.Settle | internal/buffer/buffer.go:865-891 | the one Close that won the flag takes exactly that buffer's share out of both sums, once, and unregisters it |
| PoolImpl.Registry.Open | internal/buffer/pool.go:124-134 | a new buffer adds exactly its seeded bytes to the disk sum and disturbs no other |
| PoolImpl.Registry.ReclaimDisk | internal/buffer/pool.go:250-279 | over the pool's buffers: it terminates, each buffer loses and reports exactly the same bytes, all behind its own window, and it ends under the limit, with no buffer registered, or with nothing left behind any registered window |
| PoolImpl.Registry.Pass | internal/buffer/pool.go:265-270 | one pass takes from each registered buffer what is behind its window until the pool is under the limit, and counts it exactly |
| Failover.Call.Execute | internal/nntp/client.go:418-663 | whatever providers, dials, retries and the context do: every slot taken is back and no closed connection is pooled; a not-found needs a 430, no damaged last answer and no provider left that only timed out with its backbone silent; it accounts for every provider - a backbone that answered, or an own failure that ends in something other than a timeout - exactly when each one still allowed at the end was asked, and if no try failed to get a connection while someone was allowed, nobody is still allowed; once some provider said 430 a call with no early return reports exactly the timeout, the corrupt copy or the not-found; nobody is asked again after a verdict that covers it, and attempts are bounded |
| Failover.NeverAsked | internal/nntp/client.go:466-481 | a run of the code where a try gets no connection although a provider is allowed: it reports not-found and that provider was never asked |
| Failover.Call.AskAll | internal/nntp/client.go:460-641 | the loop over providers: each turn leaves one provider fewer to ask and excludes nobody who gave no error |
| Failover.Call.Conclude | internal/nntp/client.go:644-662 | after the loop the stored flags decide the verdict that the log of answers calls for |
| Failover.Call.TryOne | internal/nntp/client.go:484-641 | one provider's turn: the slot comes back on every path, and what is excluded afterwards is exactly what the final error says of the provider that gave the last answer |
| Failover.Call.RetryDo | internal/retry/retry.go:121-196 | the bounded retry loop: it ends holding at most one connection and its slot, never losing an answer unless the context ended |
| Failover.Call.Attempt | internal/nntp/client.go:504-582 | the retry closure records each answer under the provider that gave it, and either keeps a connection, trades it for another with one slot, or gives it back |
| Failover.Call.Reconnect | internal/nntp/client.go:520-550 | a dead connection's slot is released before another is taken; the new one comes from another provider whenever one could be had, else from one still allowed, else there is none |
| Failover.Call.GetAny | internal/nntp/client.go:834-944 | a connection to the first allowed provider the scan can serve, else the race's, with exactly one slot more taken, or an error and none: a slot taken for a failed dial comes back |
| Failover.AskedNext | internal/nntp/client.go:1482-1558 | asking a provider the exclusions allow repeats no verdict, and excluding it by backbone or host covers its own |
| Failover.Call.GiveBack | internal/nntp/client.go:306-361 | a closed connection is released and an open one put back; either way exactly its one slot comes back, and nothing closed is pooled |
| Failover.Call.Put | internal/nntp/client.go:306-350 | an open connection is pooled only if the client is open and the stack has room; on each of the four ways out its slot is freed once |
| Failover.Call.Release | internal/nntp/client.go:353-361 | the connection is given up and its slot freed in the pool of its own address |
| Failover.Call.Note | internal/nntp/client.go:436-458 | the timeouts outstanding and the 430 flag stay a summary of the log: a host is unanswered exactly when its latest typed error was a timeout |
| StatRouting.SortPermutes | internal/nntp/stat_routing.go:507-509 | however inconsistently the comparisons answer, sorting loses and repeats no provider and leaves those already asked alone |
| StatRouting.SortSorts | internal/nntp/stat_routing.go:324-334 | when the values hold still the sort does sort, and keeps equal elements in order |
| StatRouting.StableSort | internal/nntp/stat_routing.go:507-509 | the in-place sort by adjacent swaps computes that result |
| StatRouting.ApplyStatHint | internal/nntp/stat_routing.go:476-510 | the providers still to ask are permuted only; with a hint that holds still the rest is stably sorted with absent ones last in each group, and left alone when none is absent |
| StatRouting.StatOrder | internal/nntp/stat_routing.go:300-337 | home first, the other primaries fastest first with unmeasured ones last, then backups in priority order; as a multiset the configured providers, plus home if it is not one of them |
| BatchStat.BatchStatAcrossProviders | internal/nntp/client.go:1793-1910 | without an error each id gets the verdict its answers call for; every provider is visited exactly once unless nothing was left to ask, although the order is re-sorted before each; and an id reported missing is vouched for at every configured provider not skipped |
| BatchStat.MissingIsProven | internal/nntp/client.go:1892-1907 | an id is reported missing exactly when some provider said not-found and no provider asked about it said, or failed to say, anything else |
| BatchStat.MissingIsVouched | internal/nntp/client.go:1804-1890 | then every provider visited and not skipped said not-found itself, or shares its host or non-empty backbone with one that did |
| BatchStat.FoundMeansHit | internal/nntp/client.go:1859-1867 | an id is reported available exactly when some provider had it, at the first that did |
| BatchStat.LastTroubleHolds | internal/nntp/client.go:1831-1885 | the error reported for an unsettled id is the last one a provider gave about it |
| BatchStat.ExclusionsAreVouched | internal/nntp/client.go:1548-1558 | a provider is left out for an id only on a not-found that covers its host or backbone |
| BatchStat.Settle | internal/nntp/client.go:1831-1886 | a reply, short or failed included, is matched to the ids asked about by position, each id taking exactly its own answer |
| BatchStat.Eligible | internal/nntp/client.go:1817-1828 | exactly the unresolved ids the provider is not excluded for are asked, in order |
| BatchStat.Report | internal/nntp/client.go:1892-1907 | each id no provider had is reported as its answers call for |
| StatPipeline.StatBatch | internal/nntp/conns.go:842-908 | a window succeeds exactly when its first n lines are STAT replies, the next is the 111 and nothing is buffered after it; otherwise every result of the window fails |
| StatPipeline.DateCounts | internal/nntp/conns.go:829-841 | the position of the 111 is off by exactly the stray lines before it less the replies lost before it |
| StatPipeline.WindowTold | internal/nntp/conns.go:829-841 | a window that lines up lost as many replies as it gained strays, so if lines were only lost or only added, every id has its own answer |
| StatPipeline.LinesUpIff | internal/nntp/conns.go:829-908 | a window read in full lines up exactly when the 111 gets through, every stray before it reads as a STAT reply, and as many replies were lost as strays added |
| StatPipeline.WindowTruthfulIff | internal/nntp/conns.go:829-841 | of the windows that line up under given losses and strays, all give every id its own answer if and only if no reply was lost or none can line up; every other combination can give an id another's answer |
| StatPipeline.LostAndAddedDeceives | internal/nntp/conns.go:829-841 | the smallest such case: one reply lost and one stray added go unnoticed and turn a present article into a 430 |
| StatPipeline.BatchStatOnProvider | internal/nntp/client.go:1928-1987 | every id up to a window that fails is settled and kept, every definite answer comes from its own line of a window that lined up, and no error means every id is settled |
| StatPipeline.PipelineIsHonest | internal/nntp/client.go:1928-1987 | if each window's stream only lost or only gained lines, every definite answer is the server's own for that id |
| StatPipeline.MissingIsTrue | internal/nntp/client.go:1892-1896 | from the wire to the verdict: if every reply was read by batchStatOnProvider off windows that only lost or only gained lines, an id reported missing is truly missing at each provider not skipped, or at one on its host or backbone |
| BackupRepo.FileRepo.Snapshot | pkg/backup/jobs.go:84-164 | wherever a run stops, every blob a manifest or the saved cache names is stored, other manifests are untouched, and its own is either as before or holds exactly the components planned, recording exactly what there is (for the walks, given a truthful cache); Done means complete |
| BackupRepo.FileRepo.Record | pkg/backup/jobs.go:135-163 | blobs first, then manifests; the early manifest is written when the first walk is reached with exactly what is done by then, the final one with everything wanted, each entry the expected one |
| BackupRepo.OrderIsComplete | pkg/backup/jobs.go:60-76 | every wanted component once, and no walk before a component that needs none |
| BackupRepo.FileRepo.WalkTree | pkg/backup/tree.go:123-264 | the tree blob and every blob it lists are stored, cache entries only name stored blobs, and with a truthful cache the tree lists exactly the files' contents and the cache stays truthful |
| BackupRepo.FileRepo.StoreFile | pkg/backup/tree.go:268-305 | a cached hash is used only while its blob is there, else the content is stored under its own hash; a file that held still is remembered |
| BackupRepo.FileRepo.Prune | pkg/backup/repo_prune.go:160-222 | with a plan of any age and wherever it stops: everything a remaining manifest or the cache names is still stored, only planned snapshots and unreferenced planned blobs go, and Done means all of those are gone |
| BackupRepo.FileRepo.Mark | pkg/backup/repo_prune.go:170-185 | the live set is exactly what the manifests outside the plan and the saved cache refer to; it fails only on an unreadable tree |
| BackupRepo.FileRepo.DeleteManifests | pkg/backup/repo_prune.go:186-192 | only the plan's manifests go, the rest as they were |
| BackupRepo.FileRepo.Sweep | pkg/backup/repo_prune.go:193-219 | only planned blobs that are not live go |
| BackupRepo.FileRepo.PrunePlan | pkg/backup/repo_prune.go:122-153 | the plan's snapshots are those the policy drops, its blobs exactly those stored that nothing kept refers to |
| BackupRepo.FileRepo.ApplyRetention | pkg/backup/jobs.go:295-310 | planning and pruning with nothing in between leaves exactly the policy's snapshots and no blob but those they, or the cache as it was, refer to |
| BackupRepo.Life | pkg/backup/repo_prune.go:160-222 | over any sequence of snapshot runs and prunes, each cut anywhere and with plans of any age, nothing named is ever missing |
| Retention.PlanDeletes | pkg/backup/repo_prune.go:68-137 | the loops, the 64-bit cutoff included, drop exactly the snapshots the policy does not keep, in listing order, and no complete snapshot outside the prefix |
| Retention.KeepBuckets | pkg/backup/repo_prune.go:93-112 | the early-stopping scan keeps exactly the newest snapshot of each of the newest n buckets |
| Retention.SupersededPartials | pkg/backup/repo_prune.go:227-247 | a partial is dropped exactly when a newer complete snapshot of the same named job exists |
| Retention.PlanIsFixedPoint | pkg/backup/repo_prune.go:68-137 | re-planning at the same clock over what a prune left drops nothing more, for any bucket functions |
| Retention.PlanIsMonotone | pkg/backup/repo_prune.go:88-112 | raising any count never drops a snapshot that was kept |
| Retention.AgeLimitIff | pkg/backup/repo_prune.go:113-120 | changing the age limit drops nothing more, over all listings and clocks, if and only if the cutoff does not move forward or the policy never keeps a second snapshot |
| Retention.LongerIsSafer | pkg/backup/repo_prune.go:113-120 | so raising a positive limit up to 106751 days never drops more |
| Retention.WrappedDropsMore | pkg/backup/repo_prune.go:113-120 | at 106752 days the 64-bit product wraps, the cutoff lies in the future, and a policy that can keep a second snapshot drops more |
| Retention.FirstLimitDrops | pkg/backup/repo_prune.go:113-120 | going from no age limit to any limit drops more, if and only if the policy can keep a second snapshot |
| Retention.NewestSurvives | pkg/backup/repo_prune.go:88-92 | the newest complete snapshot the policy covers always stays, whatever counts and age limit |
| DbSwap.NothingIsLost | pkg/backup/dbrestore.go:178-231 | over any run of stagings, starts, releases and stages taken back, whatever crashes or fails, every database that was ever live is whole in exactly one folder, which is no stage |
| DbSwap.MarkersStayTrue | pkg/backup/dbrestore.go:178-231 | over any run in which no stage is taken back without its marker, a pending marker names a verified stage or one swapped in since, and nothing but databases that were live lies outside the stages |
| DbSwap.RestoreIsNeverLost | pkg/backup/dbrestore.go:98-139 | a restore once staged stays staged under its marker or has become the live database, until it is taken back |
| DbSwap.AppliedIsSound | pkg/backup/dbrestore.go:178-231 | the swap cut anywhere, its undo included, keeps both |
| DbSwap.NilMeansSwapped | pkg/backup/dbrestore.go:207-230 | a swap that returns nil has the verified restore live and on hold, the old database whole under its new name, the stage and the marker gone, and every other folder as it was |
| DbSwap.ErrMeansUndone | pkg/backup/dbrestore.go:216-228 | a swap that fails before or at the second rename leaves every database where it was and keeps the marker for a retry, provided the rename back works |
| DbSwap.StagingIsSound | pkg/backup/dbrestore.go:98-139 | so does staging: the marker is written only for a verified import |
| DbSwap.UnstagingIsSound | pkg/backup/cli.go:153-166 | taking a stage back keeps the marker true if and only if the marker's removal does not fail, whose error nothing looks at, or the stage is left untouched |
| DbSwap.TakenBackGoesLive | pkg/backup/cli.go:160-166 | and if the stage is then only partly removed, the next start makes what is left of it the live database |
| DbSwap.HoldSurvivesIff | pkg/backup/dbrestore.go:208-228 | a start leaves a live unreleased restore its hold marker whatever fails, if and only if no swap is pending over a database still on hold |
| DbSwap.ExposedIsReached | pkg/backup/dbrestore.go:208-228 | that state is reached by staging a second restore before the first is released, and one failed rename at the next start then takes the hold of the first away |
| DbSwap.HeldThroughout | pkg/backup/dbrestore.go:208-228 | so over every run in which no start finds that state, a live restored database has its hold until it is released |
| DbSwap.DataFolder.ApplyPendingRestore | pkg/backup/dbrestore.go:178-231 | the ordered marker writes, renames and undo leave exactly the folder the step function says, with its result, for every combination of failures |
| DbSwap.DataFolder.StageDB | pkg/backup/dbrestore.go:98-139 | staging leaves exactly the folder the step function says, and returns nil exactly when a new marker names a whole new database |
| DbSwap.DataFolder.Start | pkg/manager/manager.go:159-173 | storage opens, and may create an empty database, only when the swap went through or there was none |
| Mirror.Remote.Run | pkg/backup/offsite.go:246-375 | however it ends every manifest on the remote has all its blobs there and is an old one or a complete local one; blobs go up before manifests, at most 50 manifests are deleted and all before any blob; success leaves exactly the complete local snapshots and their blobs; a remote holding another repository is left alone |
| Mirror.Runs | pkg/backup/offsite.go:213-375 | one mirror after another of a changing repository, each cut anywhere: the remote stays closed, and after a last run that succeeds holds exactly what the repository then has |
| Mirror.Remote.CopyManifests | pkg/backup/offsite.go:303-322 | complete manifests are added, never overwritten, each with its blobs already there |
| Mirror.Remote.DropRest | pkg/backup/offsite.go:324-375 | too many deletions delete nothing; else manifests go first and then exactly the blobs no local snapshot uses |
| Mirror.LiveBlobs | pkg/backup/offsite.go:269-299 | exactly the blobs complete local snapshots use |

## Left out

- Block memory: a block's bytes and dirty list are values in a map keyed by offset and
  the list links are separate nodes, so reuse of a freed block's memory, mmap and the
  in-place slice edits of `ranges.go` and `block.go` are not modelled as aliasing.
- The slot array and the backing file are sequences; atomics and sync.RWMutex appear as
  atomic steps only, a pread too. The fast path's slot loads and its pread are steps of
  their own in FastReads.
- 64-bit overflow of offsets and counters (the product of the age limit is modelled);
  a read error of the backing file other than the load when a block is acquired.
- Reads, writes and discards of overlapping ranges at the same time, which the caller
  contract rules out (`internal/buffer/buffer.go:156-159`).
- BufferRuns.StepKeeps: assumes that nobody writes a discarded range again before its
  hole is punched. For callers that is the same contract; for the pool's own punches
  nothing enforces it, and `BufferReads.LatePunchErases` shows what is lost.
- BufferImpl.Buffer.WriteAt: proved with nothing running between its sections; the call
  with others running between them is `BufferCalls.Traffic`, up to Close.
- BufferImpl.Buffer.WriteRegion: likewise.
- PoolRuns.BudgetHolds: an eviction whose flush fails leaves the pool over budget by more,
  as `internal/buffer/buffer.go:985-997` allows.
- BufferImpl.Buffer.Close: the flags and counters are stated; the stale list links of a
  closed buffer, which nothing reads, are not.
- Blocks.RemoveDirty: requires lo < hi, which its only caller guarantees; an empty range
  inside an extent would be split into two extents that touch.
- PoolImpl.Registry.ReclaimDisk: with no other section running meanwhile.
- WillRead, DropBehind, Sync, Stats, fadvise, fallocate and temporary files.
- Provider tiers, quotas, cooldowns, measured speeds and raceForConnection, which are
  arbitrary choices here; a race whose context ends after a winner was chosen.
- Dialling, TLS, authentication, deadlines, idle connections, yEnc, and how a
  connection comes to be reused from a pool's stack.
- StatRouting.StableSort: insertion by adjacent swaps throughout; the library's block
  merge for more than 20 providers is not modelled.
- BatchStat.BatchStatAcrossProviders: a result's own message id text and log lines; the
  probe and how the hint learns, which is arbitrary here.
- StatPipeline.StatBatch: the time charged to hits and the writing of the commands.
- FileRepo locking: runs and prunes are taken one after another, as the repository lock
  orders them; a stale lock file and cleanTemp.
- BackupRepo.FileRepo.Snapshot: a manifest is stored under its own id, an unreadable
  file cache is removed when it is met, path names inside a tree are dropped, and what a
  run adds to the saved cache is stated only as naming stored blobs.
- Retention.PlanDeletes: requires distinct snapshot ids, as file names give; calendar
  keys are arbitrary functions.
- Mirror.Remote.Run: the local repository does not change while one run lasts, only this program
  writes manifests to the remote, and rclone's transfers are taken one file at a time.
- Compression, hashing, JSON and tar encodings, throttling, scheduling, notifications,
  configuration and the command line.
