# Block layer and support library proofs

This project models parts of a Linux 3.10 based television firmware and proves what they keep,
over every input and every run. The main target is the block layer; the rest are algorithms
that stand on their own.

- **Flush sequencing** (`Flush`, `FlushRuns`, `FlushDurability`, `FlushQueue`): PREFLUSH, DATA and POSTFLUSH stages,
  two flush queues and one shared flush request. Handlers are atomic steps; the queue keeps a log
  of what happened, and the theorems speak about the log of every run.
- **Segments** (`SegmentCounts`, `SegmentRequests`, `SegmentLimits`, `SegmentSweeps`): conservative segment counts
  against the scatterlist that is built in the end. Page adjacency is an arbitrary relation.
- **Merging** (`Merging`, `MergeHistory`, `MergeHash`): requests as runs of bios, the one-hit cache, and the merge
  hash with its 64 chains and its lazily dropped entries.
- **CFQ** (`CfqGroups`, `CfqShares`, `CfqGroupTree`; `CfqChoose`, `CfqQueues`, `CfqRuns`,
  `CfqDrain`, `CfqScheduler`): the weighted group hierarchy with fixed-point shares, the choice of
  the next request, queue counters and the forced drain.
- **Dispatch order, completion, discards, tags** (`DispatchOrder`, `Completion`,
  `CompletionErrors`, `Discard`, `Tags`).
- **Stand-alone algorithms** (`Qsort`, `MemStream`, `Hashmap`, `StrParms`, `Utf`, `Arc4`).

A typical component has a specification made of values and functions, an invariant with a lemma per
operation, theorems about every run, and a class or methods that do the same in place with loops, as
the source does, proved equal to the specification. Times, keys, allocation, page adjacency, limits
and the decisions of code outside the component are parameters, so theorems hold whatever they are.
Each component has its own view of a request or a bio, with the fields it uses.

Where the code does not do what its documentation says or a reader would expect, the model follows the code:

- `blk_update_request` is documented to finish when given `blk_rq_bytes()`. It does so exactly when
  one bio is left or the last one has data (`Completion.AllBytesFinish`, `EmptyTailRemains`).
- A write of no bytes to a memory stream can lose the saved byte or extend the file
  (`MemStreams.EmptyWrite` says exactly when it does not, `HarmlessExactly` over whole runs).
- The next request CFQ picks is the cheapest seek exactly when the flags of the two neighbours do not
  stand against it (`CfqChoose.FindNextLeast`, `MixedFlagsMiss`).
- Growing a tag map copies past the new arrays exactly when the queue was lowered below half the
  depth in use (`Tags.ResizeInv`, `ResizeOverruns`).
- Peeking at a request keeps the dispatch list in order exactly when no other request starts inside
  it, or all do (`DispatchOrder.BoundaryMoves`, `OverlapBreaks`).
- Parameters can be printed and read back exactly when their keys and values avoid the separators
  (`StrParms.RoundTrip`).

`dafny verify dfyconfig.toml` checks everything.

## Model

| member | source | states |
|---|---|---|
| `FlushRuns.PostflushFollowsData` | kernel/mstar/t1/3.10/block/blk-flush.c:144-229 | In every run, a request with DATA and POSTFLUSH ends successfully only after its data completed, then a flush was issued, then that flush completed |
| `FlushRuns.PreflushPrecedesData` | kernel/mstar/t1/3.10/block/blk-flush.c:144-229 | In every run, the data of a request with PREFLUSH starts only after its insertion was followed by a flush being issued and completing |
| `FlushRuns.EndsOnce` | kernel/mstar/t1/3.10/block/blk-flush.c:174-185 | No request ends twice in a run, and it ends successfully only when each stage of its policy has been done |
| `FlushRuns.OneFlushAtATime` | kernel/mstar/t1/3.10/block/blk-flush.c:244-273 | A flush is issued only after the one before it has completed |
| `FlushRuns.Structure` | kernel/mstar/t1/3.10/block/blk-flush.c:144-273 | In every run no BUG_ON fires, the two flush indices differ exactly while the flush request is outstanding, each request is on the one list named by its first unset stage, and a pending list with no flush outstanding means some data is in flight |
| `FlushRuns.Drained` | kernel/mstar/t1/3.10/block/blk-flush.c:244-273 | No flush is lost: when queue and driver are empty every request ever inserted has ended |
| `FlushRuns.NextInv` | kernel/mstar/t1/3.10/block/blk-flush.c:144-347 | Every handler keeps the invariant of the sequencer |
| `FlushRuns.CompleteSeqInv` | kernel/mstar/t1/3.10/block/blk-flush.c:144-192 | Moving a request past its stages and kicking the flush restores the invariant |
| `FlushRuns.InsertInv` | kernel/mstar/t1/3.10/block/blk-flush.c:298-347 | Inserting a request keeps the invariant on all three paths: nothing to do, data only, sequenced |
| `FlushRuns.DataEndInv` | kernel/mstar/t1/3.10/block/blk-flush.c:275-285 | Completing the data of a sequenced request keeps the invariant |
| `FlushRuns.WalkAll` | kernel/mstar/t1/3.10/block/blk-flush.c:208-213 | The walk over the requests that waited for a flush keeps the invariant though a flush issued on the way makes the walked list the pending one |
| `FlushRuns.FlushEndInv` | kernel/mstar/t1/3.10/block/blk-flush.c:194-229 | Completion of a flush keeps the invariant |
| `FlushDurability.FuaDurable` | kernel/mstar/t1/3.10/block/blk-flush.c:94-109 | In every run a forced write inserted on a write-back cache without native FUA ends successfully only after its data completed, then a flush was issued, then that flush completed |
| `FlushDurability.FlushFirst` | kernel/mstar/t1/3.10/block/blk-flush.c:94-109 | In every run a request inserted with REQ_FLUSH on a write-back cache neither starts its data nor ends successfully before a flush issued after its insertion has completed |
| `FlushDurability.DataWhenAny` | kernel/mstar/t1/3.10/block/blk-flush.c:94-109 | Data is started only for a request that has some, which ends successfully only after it completed |
| `FlushDurability.NoFlushNoWait` | kernel/mstar/t1/3.10/block/blk-flush.c:298-347 | Without a write-back cache, or with native FUA and no REQ_FLUSH, a request is never listed for a flush: it is with the driver or has ended |
| `FlushDurability.NoFlushAtOnce` | kernel/mstar/t1/3.10/block/blk-flush.c:298-337 | Such a request ends at its insertion if it is empty and is queued behind the rest if not |
| `FlushDurability.IssuedWhenDue` | kernel/mstar/t1/3.10/block/blk-flush.c:244-273 | A flush is issued exactly when none is out, some request waits, and no data is in flight or the timeout has passed; it takes every waiting request along |
| `FlushDurability.MovesOn` | kernel/mstar/t1/3.10/block/blk-flush.c:144-187 | From a stage a request goes to the end of the pending list, starting the clock if nothing waited, to the front of the queue with its data, or out |
| `FlushDurability.ChecksLook` | kernel/mstar/t1/3.10/block/blk-flush.c:144-229 | Each BUG_ON that finds its condition broken is remembered, and nothing else is |
| `FlushDurability.WalkLooks` | kernel/mstar/t1/3.10/block/blk-flush.c:208-213 | So is the one in the walk, for a request that waits for no flush |
| `FlushQueue.RequestQueue.KickFlush` | kernel/mstar/t1/3.10/block/blk-flush.c:244-273 | The flush is issued when none is outstanding, requests wait, and no data is in flight or the wait is over; the new queue is that of the specification |
| `FlushQueue.RequestQueue.AdvanceSeq` | kernel/mstar/t1/3.10/block/blk-flush.c:144-187 | In place: the stages are recorded and the request filed for its next one, as the specification says |
| `FlushQueue.RequestQueue.CompleteSeq` | kernel/mstar/t1/3.10/block/blk-flush.c:144-192 | In place: as specified, and the return value tells whether anything was queued |
| `FlushQueue.RequestQueue.InsertFlush` | kernel/mstar/t1/3.10/block/blk-flush.c:298-347 | In place: one insertion step of the specification, invariant kept |
| `FlushQueue.RequestQueue.DataEndIo` | kernel/mstar/t1/3.10/block/blk-flush.c:275-285 | In place: one data completion step of the specification, invariant kept; true exactly when something was queued |
| `FlushQueue.RequestQueue.FlushEndIo` | kernel/mstar/t1/3.10/block/blk-flush.c:194-229 | In place: one flush completion step of the specification, invariant kept; the queue is to be run exactly when the walk queued something |
| `FlushQueue.RequestQueue.WalkRunning` | kernel/mstar/t1/3.10/block/blk-flush.c:208-213 | The walk along the live list, whose entries leave it and whose role changes on the way, equals the walk over the list as it was at the start; true exactly when something was queued |
| `SegmentCounts.MapAhead` | kernel/mstar/t1/3.10/block/blk-merge.c:12-69 | A greedy sweep that is ahead in segments or size stays ahead over any chain, and the recount stays ahead of the mapping |
| `SegmentCounts.GoodConcat` | kernel/mstar/t1/3.10/block/blk-merge.c:249-273 | Adding the counts of two chains bounds the entries of the joined chain |
| `SegmentCounts.GoodMerge` | kernel/mstar/t1/3.10/block/blk-merge.c:333-339 | One segment less is still enough when the cached sizes say the two inner segments fit in one |
| `SegmentCounts.RecountGood` | kernel/mstar/t1/3.10/block/blk-merge.c:12-69 | A recount gives a sufficient count and sound cached sizes |
| `SegmentCounts.CountExact` | kernel/mstar/t1/3.10/block/blk-merge.c:12-69 | Without high pages the recount gives exactly the number of scatterlist entries, and the size of the last |
| `SegmentCounts.CountHigh` | kernel/mstar/t1/3.10/block/blk-merge.c:31-38 | A high page is counted as a segment of its own, between what is counted on either side |
| `SegmentRequests.BackMergeOk` | kernel/mstar/t1/3.10/block/blk-merge.c:275-291 | A back merge, accepted or refused, leaves a sufficient count and sound caches, and the pages of the bio behind the others exactly if accepted |
| `SegmentRequests.FrontMergeOk` | kernel/mstar/t1/3.10/block/blk-merge.c:293-309 | A front merge, accepted or refused, leaves a sufficient count and sound caches, and the pages of the bio before the others exactly if accepted |
| `SegmentRequests.MergeRequestsOk` | kernel/mstar/t1/3.10/block/blk-merge.c:311-350 | Merging two requests, with the subtract-one case and the caches written before the last check, leaves a sufficient count |
| `SegmentRequests.RecalcOk` | kernel/mstar/t1/3.10/block/blk-merge.c:71-74 | Recounting a request establishes a sufficient count whatever it was |
| `SegmentRequests.ScatterlistFits` | kernel/mstar/t1/3.10/block/blk-merge.c:160-209 | Through any recounts, merges and partial completions no request maps to more scatterlist entries than its nr_phys_segments |
| `SegmentLimits.BackAccepted` | kernel/mstar/t1/3.10/block/blk-merge.c:249-291 | A bio is taken at the back exactly when the bytes fit max_sectors and the count with what it is charged for fits max_segments; a refusal marks the request |
| `SegmentLimits.FrontAccepted` | kernel/mstar/t1/3.10/block/blk-merge.c:249-309 | The same at the front |
| `SegmentLimits.JoinAccepted` | kernel/mstar/t1/3.10/block/blk-merge.c:311-350 | Two requests join exactly when neither was requeued, the bytes fit max_sectors, and the two counts, less one where the inner pages make one segment, fit max_segments |
| `SegmentLimits.GrownWithinLimits` | kernel/mstar/t1/3.10/block/blk-merge.c:249-350 | In every run a request that a merge makes longer is then within both limits |
| `SegmentSweeps.RecalcSegments` | kernel/mstar/t1/3.10/block/blk-merge.c:12-69 | The nested loop computes the number of segments of the chain and raises the cached sizes of its first and last bio |
| `SegmentSweeps.MapSg` | kernel/mstar/t1/3.10/block/blk-merge.c:160-209 | The entries cover the pages of the request in order, each a run of contiguous pages within the limits and as long as it can be, and are no more than nr_phys_segments |
| `SegmentSweeps.MapVec` | kernel/mstar/t1/3.10/block/blk-merge.c:113-154 | One page extends the open entry or opens the next |
| `SegmentSweeps.Recount` | kernel/mstar/t1/3.10/block/blk-merge.c:76-84 | A bio without a valid count gets one |
| `SegmentSweeps.Request.NewHwSegment` | kernel/mstar/t1/3.10/block/blk-merge.c:249-273 | The segments are added, or the request marked unmergeable when there would be too many |
| `SegmentSweeps.Request.AttemptBackMerge` | kernel/mstar/t1/3.10/block/blk-core.c:1356-1376 | In place: the back merge of the specification, limits checked in order |
| `SegmentSweeps.Request.AttemptFrontMerge` | kernel/mstar/t1/3.10/block/blk-core.c:1378-1406 | In place: the front merge of the specification, limits checked in order |
| `SegmentSweeps.AttemptMerge` | kernel/mstar/t1/3.10/block/blk-merge.c:311-350 | In place on two requests: the request merge of the specification |
| `Merging.AppendGapFree` | kernel/mstar/t1/3.10/block/blk-core.c:1356-1376 | A bio that starts where a gap-free request ends leaves it gap-free, ending where the bio ends |
| `Merging.PrependGapFree` | kernel/mstar/t1/3.10/block/blk-core.c:1378-1406 | A bio that ends where a gap-free request starts leaves it gap-free, and its end unchanged |
| `Merging.JoinGapFree` | kernel/mstar/t1/3.10/block/blk-merge.c:402-477 | Two adjacent gap-free requests make one |
| `Merging.BackMergeInv` | kernel/mstar/t1/3.10/block/elevator.c:497-508 | A back merge keeps the elevator invariant once the request is filed anew |
| `Merging.FrontMergeInv` | kernel/mstar/t1/3.10/block/elevator.c:497-508 | A front merge keeps it without moving the request on the hash |
| `Merging.JoinInv` | kernel/mstar/t1/3.10/block/elevator.c:510-527 | A request merge keeps it: the absorber is filed under the end of the absorbed, which leaves the hash |
| `Merging.EnqueueInv` | kernel/mstar/t1/3.10/block/elevator.c:644-652 | Handing a request to the scheduler keeps it |
| `Merging.RefuseInv` | kernel/mstar/t1/3.10/block/blk-merge.c:268-272 | Marking a request unmergeable keeps it and never leaves the cache on such a request |
| `Merging.DispatchInv` | kernel/mstar/t1/3.10/block/elevator.c:351-362 | Dispatching a request keeps it |
| `Merging.FindsAny` | kernel/mstar/t1/3.10/block/elevator.c:272-291 | A lookup succeeds exactly when some queued mergeable request ends at the sector |
| `Merging.ElvMergeRight` | kernel/mstar/t1/3.10/block/elevator.c:411-453 | Whatever is proposed may take the bio and touches it on the named side, the cached request comes first, and no request that ends at the bio is overlooked unless merging with the one found is not allowed |
| `Merging.QueueBioInv` | kernel/mstar/t1/3.10/block/blk-core.c:1510-1525 | Merging a bio, and then the grown request with its neighbour, keeps the invariant |
| `Merging.QueueBioBios` | kernel/mstar/t1/3.10/block/blk-core.c:1510-1525 | It takes the bio in exactly when it reports a merge, and loses or doubles no other |
| `Merging.AdjacentBioMerges` | kernel/mstar/t1/3.10/block/elevator.c:411-453 | With no objection from limits and scheduler, a bio that starts where a queued mergeable request ends is merged |
| `Merging.AbsorbRight` | kernel/mstar/t1/3.10/block/elevator.c:484-492 | Absorbing backwards from a new request ends with the same end sector and nothing found in front that can take it |
| `Merging.AddSortMergeInv` | kernel/mstar/t1/3.10/block/elevator.c:636-652 | Inserting a request with merging keeps the invariant |
| `Merging.AddSortMergeBios` | kernel/mstar/t1/3.10/block/elevator.c:636-652 | Its bios are all kept, whichever requests they end up in |
| `Merging.MergingKeepsRuns` | kernel/mstar/t1/3.10/block/elevator.c:247-291 | Through any run every request with data is a gap-free ascending run whose sizes sum to its length, the bios held are those taken in, and lookups agree with a scan |
| `MergeHistory.OnlyPermittedMerges` | kernel/mstar/t1/3.10/block/elevator.c:411-508 | In every reachable state each request is made of requests and bios handed in, by merges every one of which was allowed and within the limits of its side for the requests as they then were |
| `MergeHistory.GapCloses` | kernel/mstar/t1/3.10/block/blk-core.c:1510-1525 | A merged bio also joins the request with the neighbour named whenever the two may join |
| `MergeHistory.ArrivalMerges` | kernel/mstar/t1/3.10/block/elevator.c:462-492 | A new request is queued as it is exactly when neither the cached request nor the one found where it begins can take it |
| `MergeHash.ChainScan` | kernel/mstar/t1/3.10/block/elevator.c:272-291 | Scanning one chain gives what scanning all filed requests would, mergeable ones in filing order |
| `MergeHash.MergeQueue.HashAdd` | kernel/mstar/t1/3.10/block/elevator.c:258-264 | The request goes to the head of the chain of its current end |
| `MergeHash.MergeQueue.Reposition` | kernel/mstar/t1/3.10/block/elevator.c:266-270 | A request filed under an old end is filed under its current one |
| `MergeHash.MergeQueue.Find` | kernel/mstar/t1/3.10/block/elevator.c:272-291 | The walk of one chain, dropping unmergeable requests, returns what a scan of all findable requests would and changes nothing findable |
| `MergeHash.MergeQueue.MergedRequest` | kernel/mstar/t1/3.10/block/elevator.c:497-508 | Only a back merge moves the request on the hash |
| `MergeHash.MergeQueue.MergedRequests` | kernel/mstar/t1/3.10/block/elevator.c:510-527 | The absorber is repositioned and the absorbed request unlinked |
| `MergeHash.MergeQueue.AttemptMerge` | kernel/mstar/t1/3.10/block/blk-merge.c:402-477 | The requests are joined exactly when both are mergeable, adjacent and allowed, even if the first is still filed under its old end |
| `MergeHash.MergeQueue.Refuse` | kernel/mstar/t1/3.10/block/blk-merge.c:268-272 | In place: refusal as specified, the request staying on its chain |
| `MergeHash.MergeQueue.ElvMerge` | kernel/mstar/t1/3.10/block/elevator.c:411-453 | In place: cache, hash and scheduler asked in that order |
| `MergeHash.MergeQueue.BackMergeBio` | kernel/mstar/t1/3.10/block/blk-core.c:1511-1517 | In place: back merge followed by the attempt to absorb the next request |
| `MergeHash.MergeQueue.FrontMergeBio` | kernel/mstar/t1/3.10/block/blk-core.c:1518-1524 | In place: front merge followed by the attempt of the previous request to absorb it |
| `MergeHash.MergeQueue.QueueBio` | kernel/mstar/t1/3.10/block/blk-core.c:1510-1525 | In place: the merging half of queueing a bio, as specified |
| `MergeHash.MergeQueue.Dispatch` | kernel/mstar/t1/3.10/block/elevator.c:351-362 | In place: the request leaves cache and hash |
| `MergeHash.MergeQueue.Enqueue` | kernel/mstar/t1/3.10/block/elevator.c:644-652 | In place: the request enters hash and cache |
| `MergeHash.MergeQueue.AttemptInsertMerge` | kernel/mstar/t1/3.10/block/elevator.c:462-495 | In place: cache first, then the loop; it terminates and reports whether the request was absorbed |
| `MergeHash.MergeQueue.AddSortMerge` | kernel/mstar/t1/3.10/block/elevator.c:636-652 | In place: insertion with merging as specified |
| `Qsort.Qsort` | bootable/bootloader/ufbl-features/features/libtomcrypt/qsort.c:83-161 | Every array is left a sorted permutation of itself for every total preorder, and the call terminates |
| `Qsort.Round` | bootable/bootloader/ufbl-features/features/libtomcrypt/qsort.c:99-151 | One round leaves less, equal and greater parts, or a sorted range when the partition swapped nothing |
| `Qsort.Partition` | bootable/bootloader/ufbl-features/features/libtomcrypt/qsort.c:111-138 | The two scans leave equal elements at both ends around the smaller and the greater ones, and report whether anything was swapped |
| `Qsort.ScanUp` | bootable/bootloader/ufbl-features/features/libtomcrypt/qsort.c:116-123 | The upward scan keeps the parts and gathers equal elements on the left |
| `Qsort.ScanDown` | bootable/bootloader/ufbl-features/features/libtomcrypt/qsort.c:124-131 | The downward scan keeps the parts and gathers equal elements on the right |
| `Qsort.Gather` | bootable/bootloader/ufbl-features/features/libtomcrypt/qsort.c:147-151 | The two block swaps bring the equal elements to the middle |
| `Qsort.VecSwap` | bootable/bootloader/ufbl-features/features/libtomcrypt/qsort.c:73-73 | Two disjoint blocks are exchanged element by element |
| `Qsort.Med3` | bootable/bootloader/ufbl-features/features/libtomcrypt/qsort.c:75-81 | The value chosen is a median of the three |
| `Qsort.ChoosePivot` | bootable/bootloader/ufbl-features/features/libtomcrypt/qsort.c:99-110 | The pivot is an element of the range |
| `Qsort.InsertionSort` | bootable/bootloader/ufbl-features/features/libtomcrypt/qsort.c:92-98 | A range is left a sorted permutation of itself |
| `Qsort.Sink` | bootable/bootloader/ufbl-features/features/libtomcrypt/qsort.c:94-96 | The next element sinks to its place in the sorted part |
| `CfqGroups.CountersAgree` | kernel/mstar/t1/3.10/block/cfq-iosched.c:1295-1397 | In every reachable hierarchy nr_active and children_weight equal what is queued at and active below each group, one is zero exactly when the other is, and the fraction of a queued group is within 1..4096 |
| `CfqGroups.AddInv` | kernel/mstar/t1/3.10/block/cfq-iosched.c:1295-1339 | Activation keeps the counters, changes no other fraction, and sets the fraction to the share in the new state, at least 1 |
| `CfqGroups.DelInv` | kernel/mstar/t1/3.10/block/cfq-iosched.c:1366-1397 | Deactivation undoes exactly that contribution: an inactive group is back to weight zero |
| `CfqGroups.BumpCounted` | kernel/mstar/t1/3.10/block/cfq-iosched.c:1328-1336 | One missing contributor is made good up to the first ancestor already active |
| `CfqGroups.BumpWeights` | kernel/mstar/t1/3.10/block/cfq-iosched.c:1275-1282 | A pending weight takes effect exactly when its group becomes active |
| `CfqGroups.AddWeights` | kernel/mstar/t1/3.10/block/cfq-iosched.c:1276-1338 | Putting a group on the tree makes its pending leaf weight take effect, and the pending weight of every group that becomes active by it, and no other |
| `CfqGroups.WantedKept` | kernel/mstar/t1/3.10/block/cfq-iosched.c:1276-1338 | Only setting a weight from 10 to 1000 changes what a group will compete with |
| `CfqGroups.DropCounted` | kernel/mstar/t1/3.10/block/cfq-iosched.c:1376-1392 | One contributor too many is taken out up to the first ancestor that stays active |
| `CfqGroups.UpToBound` | kernel/mstar/t1/3.10/block/cfq-iosched.c:1328-1336 | Compounding never divides by zero and never increases a share |
| `CfqShares.SharesWithinOne` | kernel/mstar/t1/3.10/block/cfq-iosched.c:1318-1336 | In every reachable hierarchy the floor-divided shares of all queued groups sum to at most 4096 |
| `CfqShares.ShareAccurate` | kernel/mstar/t1/3.10/block/cfq-iosched.c:1318-1336 | A share is the exact fraction of 4096, less at most one unit per level |
| `CfqShares.SharesNearOne` | kernel/mstar/t1/3.10/block/cfq-iosched.c:238-248 | While anything is queued the shares of all queued groups sum to 4096 but for one unit per queued group and level |
| `CfqShares.FractionSplit` | kernel/mstar/t1/3.10/block/cfq-iosched.c:226-248 | What reaches an active group is split exactly among its own queues and its active children |
| `CfqGroupTree.GroupTree.ServiceTreeAdd` | kernel/mstar/t1/3.10/block/cfq-iosched.c:1295-1339 | In place: the one walk to the root that activates and compounds the fraction gives the specified hierarchy |
| `CfqGroupTree.GroupTree.Climb` | kernel/mstar/t1/3.10/block/cfq-iosched.c:1328-1336 | In place: one level of that walk |
| `CfqGroupTree.GroupTree.ServiceTreeDel` | kernel/mstar/t1/3.10/block/cfq-iosched.c:1366-1397 | In place: the walk that deactivates gives the specified hierarchy, and the weight of every emptied group is zero |
| `CfqGroupTree.GroupTree.SetWeight` | kernel/mstar/t1/3.10/block/cfq-iosched.c:1700-1734 | A weight outside 10..1000 is refused, another waits in new_weight |
| `CfqChoose.ChooseExactly` | kernel/mstar/t1/3.10/block/cfq-iosched.c:1076-1159 | The choice between two requests: by sync, then PRIO, then the seek, spelled out in sectors: short backward seeks at the penalty, far ones last and lowest first, ties to the one ahead |
| `CfqChoose.ChooseLeast` | kernel/mstar/t1/3.10/block/cfq-iosched.c:1076-1159 | The one returned costs no more to seek to than either exactly when the flags are equal or the request they favour is no further |
| `CfqChoose.FindNextLeast` | kernel/mstar/t1/3.10/block/cfq-iosched.c:1207-1229 | Looking only at the neighbours, or the wrap-around first, finds a request of least seek cost among all others of the list exactly when there is none in front, or the flags of those two are equal or favour the one that is no further |
| `CfqChoose.MixedFlagsMiss` | kernel/mstar/t1/3.10/block/cfq-iosched.c:1092-1096 | A list on which that condition fails: the PRIO neighbour wins over a nearer one |
| `CfqChoose.InsertSortedOk` | kernel/mstar/t1/3.10/block/cfq-iosched.c:2228-2234 | Insertion keeps the list sorted by sector |
| `CfqQueues.AddRrOk` | kernel/mstar/t1/3.10/block/cfq-iosched.c:2164-2174 | Joining the round-robin keeps every counter in agreement |
| `CfqQueues.DelRrOk` | kernel/mstar/t1/3.10/block/cfq-iosched.c:2180-2200 | Leaving it keeps every counter in agreement |
| `CfqQueues.ResortOk` | kernel/mstar/t1/3.10/block/cfq-iosched.c:2007-2083 | Moving a queue to another place or tree leaves every counter alone |
| `CfqQueues.NotifyAddOk` | kernel/mstar/t1/3.10/block/cfq-iosched.c:1341-1364 | A group counts one queue more and is on the group tree |
| `CfqQueues.NotifyDelOk` | kernel/mstar/t1/3.10/block/cfq-iosched.c:1399-1415 | A group counts one queue fewer and leaves the group tree with the last |
| `CfqQueues.TakeCounted` | kernel/mstar/t1/3.10/block/cfq-iosched.c:2206-2213 | Taking a listed request finds its direction counted and keeps both counts right |
| `CfqRuns.RemoveRqOk` | kernel/mstar/t1/3.10/block/cfq-iosched.c:2305-2321 | Removing a request keeps fifo and sorted list in agreement and next_rq on the list, none only when it is empty; the count of its direction was not zero |
| `CfqRuns.DispatchInsertOk` | kernel/mstar/t1/3.10/block/cfq-iosched.c:2778-2794 | So does dispatching one, whose direction was counted too |
| `CfqRuns.InsertRequestInv` | kernel/mstar/t1/3.10/block/cfq-iosched.c:3927-3941 | So does a new request, whose queue joins the round-robin if it was off it |
| `CfqRuns.InsertRequestAdds` | kernel/mstar/t1/3.10/block/cfq-iosched.c:3927-3941 | The new request waits in its queue and every other request where it was |
| `CfqRuns.RepositionKeeps` | kernel/mstar/t1/3.10/block/cfq-iosched.c:2256-2264 | Moving the start of a request takes it out of no queue and into none |
| `CfqRuns.MergedRequestsTakes` | kernel/mstar/t1/3.10/block/cfq-iosched.c:2354-2385 | Exactly the absorbed request leaves its queue |
| `CfqRuns.RepositionInv` | kernel/mstar/t1/3.10/block/cfq-iosched.c:2256-2264 | So does a front merge that moves the start of a request |
| `CfqRuns.MergedRequestsInv` | kernel/mstar/t1/3.10/block/cfq-iosched.c:2354-2385 | So does a request merge, which retires a queue it empties unless that is active |
| `CfqRuns.SliceExpiredOk` | kernel/mstar/t1/3.10/block/cfq-iosched.c:2447-2493 | Expiry keeps the invariant, leaves no queue active, and takes the queue off the round-robin exactly when it is empty |
| `CfqRuns.BusyGroup` | kernel/mstar/t1/3.10/block/cfq-iosched.c:1399-1404 | The group of a busy queue counts it and is on the group tree |
| `CfqRuns.ServedNext` | kernel/mstar/t1/3.10/block/cfq-iosched.c:2778-2794 | The request served after another is the cheapest seek from it among all of the queue, exactly when the flags of its neighbours do not stand against it |
| `CfqRuns.EnteredNext` | kernel/mstar/t1/3.10/block/cfq-iosched.c:2228-2253 | A new request is served next exactly when there was none or it is chosen over the one that was |
| `CfqDrain.DrainQueueOk` | kernel/mstar/t1/3.10/block/cfq-iosched.c:3134-3148 | Everything in the queue goes out exactly once, nothing else does, and fifo, list and both counts end empty, no check of a count having failed |
| `CfqDrain.DrainFirst` | kernel/mstar/t1/3.10/block/cfq-iosched.c:3134-3148 | The request marked as next goes out first |
| `CfqDrain.NextForcedOk` | kernel/mstar/t1/3.10/block/cfq-iosched.c:2523-2541 | While anything is queued a busy queue is found |
| `CfqDrain.NextForcedFirst` | kernel/mstar/t1/3.10/block/cfq-iosched.c:2523-2541 | It is the first queue of the first tree in use of the first group |
| `CfqDrain.NothingBusy` | kernel/mstar/t1/3.10/block/cfq-iosched.c:3166-3166 | With nothing queued and no queue active no queue is busy or counts a request |
| `CfqDrain.DrainsEverythingOnce` | kernel/mstar/t1/3.10/block/cfq-iosched.c:3154-3170 | A forced dispatch terminates, leaves no queue busy, and sends every waiting request exactly once and nothing else |
| `CfqDrain.PreemptInv` | kernel/mstar/t1/3.10/block/cfq-iosched.c:3847-3871 | Preemption keeps the invariant |
| `CfqDrain.CountersAgree` | kernel/mstar/t1/3.10/block/cfq-iosched.c:2007-2200 | In every reachable state busy_queues equals the queues on the round-robin, the sum of nr_cfqq and the sum of all tree counts, queued[] of each queue counts its requests by direction and its BUG_ON has never fired, and an empty queue is on the round-robin only while active |
| `CfqDrain.ChecksHold` | kernel/mstar/t1/3.10/block/cfq-iosched.c:1449-1457 | The BUG_ONs on a busy queue hold: busy_queues and nr_cfqq are positive, the number of synchronous queues is not negative, and whatever request it gives up is counted |
| `CfqScheduler.Scheduler.ServiceTreeAdd` | kernel/mstar/t1/3.10/block/cfq-iosched.c:2007-2083 | In place: as specified, the group notified only for a queue new on a tree |
| `CfqScheduler.Scheduler.AddCfqqRr` | kernel/mstar/t1/3.10/block/cfq-iosched.c:2164-2174 | In place: as specified |
| `CfqScheduler.Scheduler.DelCfqqRr` | kernel/mstar/t1/3.10/block/cfq-iosched.c:2180-2200 | In place: as specified |
| `CfqScheduler.Scheduler.RemoveRequest` | kernel/mstar/t1/3.10/block/cfq-iosched.c:2305-2321 | In place: as specified |
| `CfqScheduler.Scheduler.DelRqRb` | kernel/mstar/t1/3.10/block/cfq-iosched.c:2206-2213 | In place: the count of the direction is checked and taken down, and the request leaves the sorted list |
| `CfqScheduler.Scheduler.DispatchInsert` | kernel/mstar/t1/3.10/block/cfq-iosched.c:2778-2794 | In place: as specified, though next_rq is replaced before the request is removed |
| `CfqScheduler.Scheduler.InsertRequest` | kernel/mstar/t1/3.10/block/cfq-iosched.c:3927-3941 | In place: as specified, though the queue joins the round-robin before its next request is chosen |
| `CfqScheduler.Scheduler.MergedRequests` | kernel/mstar/t1/3.10/block/cfq-iosched.c:2354-2385 | In place: as specified |
| `CfqScheduler.Scheduler.SliceExpired` | kernel/mstar/t1/3.10/block/cfq-iosched.c:2447-2493 | In place: as specified |
| `CfqScheduler.Scheduler.ForcedDispatchCfqq` | kernel/mstar/t1/3.10/block/cfq-iosched.c:3134-3148 | In place: the loop ends with an empty fifo and counts what it sent |
| `CfqScheduler.Scheduler.GetNextQueueForced` | kernel/mstar/t1/3.10/block/cfq-iosched.c:2523-2541 | The loop over the trees finds the first queue of the first tree in use |
| `CfqScheduler.Scheduler.ForcedDispatch` | kernel/mstar/t1/3.10/block/cfq-iosched.c:3154-3170 | In place: the drain as specified, busy_queues zero at the end, and as many sent as were queued |
| `DispatchOrder.SortKeepsOrder` | kernel/mstar/t1/3.10/block/elevator.c:351-388 | Sorting a request in adds it and keeps one-way elevator order behind what has been started |
| `DispatchOrder.SortExactly` | kernel/mstar/t1/3.10/block/elevator.c:351-388 | Whatever is on the list, a request goes right behind the last one it does not overtake: another direction or kind, a barrier, one shown to the driver, or one before it in the order |
| `DispatchOrder.SortKeepsStretches` | kernel/mstar/t1/3.10/block/elevator.c:351-388 | Sorting any request into any list keeps every stretch of requests that may overtake each other in elevator order |
| `DispatchOrder.StretchOrdered` | kernel/mstar/t1/3.10/block/elevator.c:351-388 | In such a list any two requests of a stretch are in order |
| `DispatchOrder.BoundaryMoves` | kernel/mstar/t1/3.10/block/blk-core.c:2136-2139 | Moving the boundary to the end of the first request keeps the order exactly when no other request starts inside it, or all do |
| `DispatchOrder.OverlapBreaks` | kernel/mstar/t1/3.10/block/blk-core.c:2136-2139 | Overlapping requests for which it does not |
| `DispatchOrder.PeekInv` | kernel/mstar/t1/3.10/block/blk-core.c:2107-2139 | With disjoint ranges a peek keeps the order about the boundary it moves |
| `DispatchOrder.OneWayAlways` | kernel/mstar/t1/3.10/block/elevator.c:351-388 | In every run of insertions, peeks and removals the unstarted part lies at or past end_sector ascending, then below it ascending |
| `DispatchOrder.DispatchList.DispatchSort` | kernel/mstar/t1/3.10/block/elevator.c:351-388 | In place: the walk from the tail finds the specified place |
| `DispatchOrder.DispatchList.PeekRequest` | kernel/mstar/t1/3.10/block/blk-core.c:2107-2139 | In place: the first request is marked started and becomes the boundary |
| `Completion.UpdateOk` | kernel/mstar/t1/3.10/block/blk-core.c:2295-2399 | A partial completion ends the finished bios in order, keeps the byte count equal to what is left, never finds the request botched, and asks for more exactly while a bio is left |
| `Completion.ConsumeErrors` | kernel/mstar/t1/3.10/block/blk-core.c:155-171 | Bios ended by a failing call get its error; by a successful one, none unless a part failed before, and then -EIO |
| `CompletionErrors.RunErrors` | kernel/mstar/t1/3.10/block/blk-core.c:155-171 | Over any run a bio reports the error of the call that ended it; if that has none, 0 exactly when it came up to date and no call that touched it had an error, and -EIO if not |
| `CompletionErrors.EndsWhen` | kernel/mstar/t1/3.10/block/blk-core.c:2344-2372 | A call ends a bio exactly when it touches it and covers its last byte |
| `Completion.AdvanceSuffix` | kernel/mstar/t1/3.10/fs/bio.c:805-832 | What is left are the last segments, the first cut short, and no empty one |
| `Completion.AllBytesFinish` | kernel/mstar/t1/3.10/block/blk-core.c:2344-2372 | Completing blk_rq_bytes consumes every bio exactly when there is only one or the last is not empty |
| `Completion.BotchedSetRight` | kernel/mstar/t1/3.10/block/blk-core.c:2374-2394 | A byte count above what the bios hold is taken down by what was consumed, and never below the current segment |
| `Completion.EmptyTailRemains` | kernel/mstar/t1/3.10/block/blk-core.c:2288-2289 | A request whose last bio is empty is not finished by completing all its bytes |
| `Completion.RunOk` | kernel/mstar/t1/3.10/block/blk-core.c:2295-2399 | Any run of completions ends bios in chain order, each once, and leaves exactly the bytes not asked for |
| `Completion.FinishedWhenAllAsked` | kernel/mstar/t1/3.10/block/blk-core.c:2295-2399 | With non-empty bios a run finishes the request exactly when it has asked for all its bytes, every bio then having ended once |
| `Completion.FlushEndsOnce` | kernel/mstar/t1/3.10/block/blk-flush.c:115-185 | A sequenced request is completed for its data, in any number of pieces or not at all when a flush fails first, and again when the sequence is over; its bio ends exactly once, at that last completion, with its error, or -EIO exactly when a completion of the data failed |
| `Completion.BioAdvance` | kernel/mstar/t1/3.10/fs/bio.c:805-832 | The loop drops whole segments and shortens the next |
| `Completion.LiveRequest.ReqBioEndIo` | kernel/mstar/t1/3.10/block/blk-core.c:155-171 | In place: one bio advanced and ended if done |
| `Completion.LiveRequest.UpdateRequest` | kernel/mstar/t1/3.10/block/blk-core.c:2295-2399 | In place: the loop consumes what the specification says |
| `Discard.MaxSectsOk` | kernel/mstar/t1/3.10/block/blk-lib.c:68-71 | The rounded maximum is a multiple of the granularity and its byte count fits in 32 bits |
| `Discard.MaxSectsMost` | kernel/mstar/t1/3.10/block/blk-lib.c:68-71 | No more of the granularity would fit |
| `Discard.InSectors` | kernel/mstar/t1/3.10/block/blk-lib.c:62-64 | The granularity is in whole sectors, at least one, and the alignment what is left of its whole sectors within that |
| `Discard.AlignedBytes` | kernel/mstar/t1/3.10/block/blk-lib.c:62-64 | For limits in whole sectors a sector is aligned exactly when its byte offset leaves the remainder the device asks for |
| `Discard.EndSectOk` | kernel/mstar/t1/3.10/block/blk-lib.c:97-111 | A bio takes at least one sector, no more than allowed, and unless it is the last stops at the furthest aligned point within reach |
| `Discard.SplitTiles` | kernel/mstar/t1/3.10/block/blk-lib.c:87-132 | The bios tile the range in order without gap or overlap, all of it unless an allocation fails |
| `Discard.SplitAligned` | kernel/mstar/t1/3.10/block/blk-lib.c:87-132 | Every bio is within the limits and every interior split point is aligned |
| `Discard.SplitFull` | kernel/mstar/t1/3.10/block/blk-lib.c:87-132 | Only the first and the last bio can be shorter than the maximum |
| `Discard.IssueDiscard` | kernel/mstar/t1/3.10/block/blk-lib.c:59-144 | Exactly those bios are issued, with REQ_SECURE when asked for; the result is refusal where discards or secure ones are not supported, else -EIO exactly when some bio failed, else -ENOMEM exactly when an allocation did |
| `Discard.IssueBios` | kernel/mstar/t1/3.10/block/blk-lib.c:87-132 | The loop issues exactly the bios of the split, tells whether an allocation failed, and keeps BIO_UPTODATE exactly when no bio failed |
| `Discard.Rounded` | kernel/mstar/t1/3.10/block/blk-lib.c:62-72 | Granularity, alignment and maximum as the sequence of assignments computes them |
| `Discard.StopAt` | kernel/mstar/t1/3.10/block/blk-lib.c:97-111 | The end of the next bio as computed by the loop |
| `Discard.WokenOnce` | kernel/mstar/t1/3.10/block/blk-lib.c:18-27 | The issuer is let go exactly once, when all is issued and the last bio has ended, and the batch is then not up to date exactly when some bio ended with an error other than -EOPNOTSUPP |
| `Tags.BitsMatchIndex` | kernel/mstar/t1/3.10/block/blk-tag.c:261-356 | In every reachable state a bit is set exactly when the index holds a request carrying that tag, and no two requests share a tag |
| `Tags.StartInv` | kernel/mstar/t1/3.10/block/blk-tag.c:309-356 | A start succeeds exactly when a tag is free below the limit for the request, two less for an asynchronous one but at least one, and no more of its kind are in flight; it gets the least |
| `Tags.EndInv` | kernel/mstar/t1/3.10/block/blk-tag.c:261-288 | Ending a tag keeps map, index and busy list in agreement |
| `Tags.EndUndoesStart` | kernel/mstar/t1/3.10/block/blk-tag.c:261-356 | Ending a request just started restores map, index and busy list |
| `Tags.SyncTagsSpared` | kernel/mstar/t1/3.10/block/blk-tag.c:323-335 | As long as the map is not resized, asynchronous requests never hold one of the last two tags |
| `Tags.ResizeInv` | kernel/mstar/t1/3.10/block/blk-tag.c:199-244 | Resizing keeps all tags in use, fails exactly for a shared map that would have to grow, and copies past the new arrays exactly when an unshared map has to grow and the cap is below its depth |
| `Tags.ResizeOverruns` | kernel/mstar/t1/3.10/block/blk-tag.c:229-240 | A map of 16 tags on a queue lowered to 4 requests overruns when asked for 17 |
| `Tags.InvalidateOk` | kernel/mstar/t1/3.10/block/blk-tag.c:371-377 | Invalidation clears every tag and puts the busy requests, in the order they were started, in front of the queue |
| `Tags.TagQueue.StartTag` | kernel/mstar/t1/3.10/block/blk-tag.c:309-356 | In place: as specified |
| `Tags.TagQueue.EndTag` | kernel/mstar/t1/3.10/block/blk-tag.c:261-288 | In place: as specified |
| `Tags.TagQueue.ResizeTags` | kernel/mstar/t1/3.10/block/blk-tag.c:199-244 | In place: as specified, into freshly allocated arrays, and reports when the copy would overrun them |
| `Tags.TagQueue.InvalidateTags` | kernel/mstar/t1/3.10/block/blk-tag.c:371-377 | In place: as specified, walking the list its entries leave |
| `MemStreams.WriteIsWrite` | system/core/libcutils/open_memstream.c:123-157 | A write of at least one byte does to the stream what it does to a zero-filling file, with NUL where the caller is told the stream ends |
| `MemStreams.EmptyWrite` | system/core/libcutils/open_memstream.c:123-157 | Writing nothing zeroes the byte at the position or fills up to it, so it keeps the contents exactly when the position is at the end, or inside on a zero byte |
| `MemStreams.EmptyWriteLoses` | system/core/libcutils/open_memstream.c:123-157 | Writing nothing at the start of "ab" loses the "a" |
| `MemStreams.HarmlessExactly` | system/core/libcutils/open_memstream.c:123-211 | A run keeps to the zero-filling file at every step exactly when it writes nothing only at the end or on a zero byte |
| `MemStreams.SeekIsSeek` | system/core/libcutils/open_memstream.c:164-211 | A seek restores the stomped byte and saves the next one; the contents do not change |
| `MemStreams.MemStream.EnsureCapacity` | system/core/libcutils/open_memstream.c:86-114 | The buffer has room for the bytes and the NUL, and keeps what it held |
| `MemStreams.MemStream.WriteBytes` | system/core/libcutils/open_memstream.c:123-157 | In place: as for the specification, for empty and non-empty writes |
| `MemStreams.MemStream.SeekTo` | system/core/libcutils/open_memstream.c:164-211 | In place: as for the specification, with -1 for a negative target |
| `MemStreams.Replay` | system/core/libcutils/open_memstream.c:123-211 | After any run of seeks and writes the buffer with the saved byte put back is the file, all of it up to its end, empty writes stomping as above; what the caller sees is that data with a NUL at the size, the position or the end, whichever is less |
| `Hashmaps.PutOk` | system/core/libcutils/hashmap.c:189-219 | Put sets one key of the represented map, returns what it had, and keeps the table at most three quarters full |
| `Hashmaps.GetOk` | system/core/libcutils/hashmap.c:221-234 | Get looks the key up in the represented map |
| `Hashmaps.RemoveOk` | system/core/libcutils/hashmap.c:284-304 | Remove takes one key out of the represented map and returns its value |
| `Hashmaps.ExpandOk` | system/core/libcutils/hashmap.c:101-130 | Rehashing into twice the buckets represents the same map |
| `Hashmaps.ExpandWhen` | system/core/libcutils/hashmap.c:101-111 | The buckets double exactly when they are more than three quarters full |
| `Hashmaps.FlattenHolds` | system/core/libcutils/hashmap.c:306-320 | Walking all buckets meets every pair exactly once |
| `Hashmaps.BucketCount` | system/core/libcutils/hashmap.c:54-59 | The bucket count is the least power of two above the minimum |
| `Hashmaps.Hashmap.PutValue` | system/core/libcutils/hashmap.c:189-219 | In place: the map changes at one key only |
| `Hashmaps.Hashmap.GetValue` | system/core/libcutils/hashmap.c:221-234 | In place: the walk of one chain is a lookup in the map |
| `Hashmaps.Hashmap.RemoveKey` | system/core/libcutils/hashmap.c:284-304 | In place: the key is gone and nothing else |
| `Hashmaps.Hashmap.ExpandIfNecessary` | system/core/libcutils/hashmap.c:101-130 | The nested loops relink every entry as specified |
| `StrParms.RoundTrip` | system/core/libcutils/str_parms.c:316-348 | Parsing the printed text of a table, whatever the order of its entries, gives the same map exactly when keys are non-empty and free of = and ; and values free of ; |
| `StrParms.TokensSnoc` | system/core/libcutils/str_parms.c:147-147 | A token after a semicolon becomes the last token |
| `StrParms.ParseClean` | system/core/libcutils/str_parms.c:129-191 | Parsing any text yields only such keys and values |
| `StrParms.HashWraps` | system/core/libcutils/str_parms.c:45-53 | The 32-bit hash wraps around at every character as if it did so once at the end |
| `StrParms.Parms.AddPair` | system/core/libcutils/str_parms.c:148-176 | In place: one pair, with or without =, or skipped |
| `StrParms.Parms.AddAll` | system/core/libcutils/str_parms.c:147-179 | In place: the tokenising loop |
| `StrParms.Parms.ToStr` | system/core/libcutils/str_parms.c:339-348 | The text printed, and when it can be read back |
| `StrParms.Combine` | system/core/libcutils/str_parms.c:316-337 | The pairs of a chain appended with semicolons between |
| `Utf.DecodeEncode` | system/core/libcutils/strdup16to8.c:107-137 | Decoding the encoding of any units gives them back, embedded zeros and lone surrogates included |
| `Utf.EncodeNoZero` | system/core/libcutils/strdup16to8.c:107-137 | The encoding has no zero byte |
| `Utf.CountEncode` | system/core/libcutils/strdup8to16.c:68-99 | The count for an encoding is the number of units encoded |
| `Utf.DecodeFits` | system/core/libcutils/strdup8to16.c:68-177 | On every byte string, malformed or not, no more units are written than were counted |
| `Utf.DecodeExact` | system/core/libcutils/strdup8to16.c:68-177 | As many units are written as were counted exactly when no four-byte sequence breaks off or exceeds the limit |
| `Utf.DecodeText` | system/core/libcutils/strdup8to16.c:68-177 | A UTF-8 text, four-byte sequences included, decodes to UTF-16 that spells the same code points in exactly as many units as counted |
| `Utf.Replaced` | system/core/libcutils/strdup8to16.c:112-143 | A stray continuation byte and a sequence that breaks off become the replacement character, up to where they break off |
| `Utf.StrnLen16To8` | system/core/libcutils/strdup16to8.c:29-92 | The length of the encoding, or one below the maximum of size_t when it does not fit |
| `Utf.StrnCpy16To8` | system/core/libcutils/strdup16to8.c:107-137 | The encoding and a terminator, within a buffer of that length and one more |
| `Utf.StrLen8To16` | system/core/libcutils/strdup8to16.c:68-99 | The count, with continuation bytes counted only when not expected |
| `Utf.GetUtf32` | system/core/libcutils/strdup8to16.c:112-143 | The next character, or the replacement character, and where it ends |
| `Utf.StrCpy8To16` | system/core/libcutils/strdup8to16.c:151-177 | The decoded units, within a buffer of as many as were counted |
| `Utf.SeqLengthBits` | system/core/libcutils/strdup8to16.c:30-30 | The table lookup by shifting gives the sequence length |
| `Utf.EncodeBits` | system/core/libcutils/strdup16to8.c:119-124 | Shifts and masks are the divisions and remainders used here |
| `Utf.SurrogateBits` | system/core/libcutils/strdup8to16.c:167-168 | So they are for surrogate pairs |
| `Arc4.PipeStep` | kernel/mstar/t1/3.10/crypto/arc4.c:71-80 | Storing the fetched pair the other way round is the swap of RC4, and their sum the index of the key byte |
| `Arc4.KeyScheduleIs` | kernel/mstar/t1/3.10/crypto/arc4.c:29-51 | The state for a key is what 256 turns of the RC4 key schedule, written out entry by entry, make of the identity |
| `Arc4.StreamIs` | kernel/mstar/t1/3.10/crypto/arc4.c:53-88 | Each output byte is the text byte mixed with the one RC4 picks in that turn, written out entry by entry |
| `Arc4.CryptSplit` | kernel/mstar/t1/3.10/crypto/arc4.c:53-88 | A text in two calls gives what it gives in one |
| `Arc4.CryptPiecesOnce` | kernel/mstar/t1/3.10/crypto/arc4.c:53-88 | A text in any number of calls gives what it gives in one |
| `Arc4.CryptUndoes` | kernel/mstar/t1/3.10/crypto/arc4.c:53-88 | Encrypting twice from one state gives the text back |
| `Arc4.DecryptsAnySplit` | kernel/mstar/t1/3.10/crypto/arc4.c:29-88 | What a key encrypts in any number of pieces it decrypts in any number of others |
| `Arc4.Context.SetKey` | kernel/mstar/t1/3.10/crypto/arc4.c:29-51 | The state is the RC4 key schedule, a permutation, with the key repeated |
| `Arc4.Context.Turn` | kernel/mstar/t1/3.10/crypto/arc4.c:71-80 | One turn is one RC4 step, with the next swap fetched |
| `Arc4.Context.CryptBytes` | kernel/mstar/t1/3.10/crypto/arc4.c:53-88 | The pipelined loop equals one-swap-per-byte RC4 on every text and keeps S a permutation |

## Left out

- Abort paths and device removal (`blk_abort_flushes`, `elv_abort_queue`), request allocation and freeing, statistics, sysfs, cgroup files, tracing and runtime power management.
- Locking: each section under the queue lock is one atomic step. The retry loop of tag allocation, which matters only when two queues share a map, is a single attempt.
- Machine widths: counters, sectors, weights and lengths are unbounded, and `blk_try_merge` does not wrap around below sector 0. Widths are modelled where the code guards against them: the 32-bit byte count of a discard, `size_t` in `strnlen16to8`, bytes in ARC4 and UTF-8, 16-bit units.
- Flush sequencing assumes what the header of `blk-flush.c` asks, that an empty request carries only REQ_FLUSH.
- DMA drain, padding, integrity, bidirectional, discard and write-same requests in merging and segments; failfast attributes, I/O priorities and start times of merged requests.
- Queue flags that switch merging off (`nomerges`, `noxmerges`).
- Plug lists: a request that arrives from one is any gap-free request.
- CFQ: idling, slice sizing, think times, cooperating queues and their reference counts, priority trees, and the value of `vdisktime` and `rb_key`; where a queue or group lands on its tree is a parameter. Nothing is claimed about the count kept for the group tree.
- CfqGroupTree.GroupTree.SetWeight: one group at a time; it does not model per-device weights overriding the one of the cgroup, nor a zero that resets them.
- CfqQueues.ResortOk: the position on the tree is a parameter of the operation, so it does not say that the tree is sorted by key.
- CfqChoose.FindNextLeast: `s1 + back_max` and the penalised distance are taken without overflow.
- DispatchOrder.OneWayAlways: for requests of one direction, without barriers, on disjoint ranges; requeueing and `elv_dispatch_add_tail`, which make a barrier, are not steps of the run.
- Tags.ResizeInv: nothing is said of the state after an overrun, where a run ends; a failed allocation, which changes nothing, is not modelled.
- Discard: `blkdev_issue_write_same` and `blkdev_issue_zeroout`; a device without a queue.
- Linked structures are sequences: hash and bucket chains, kernel lists and red-black trees are modelled by their order, not by their pointers. Buffers, tag arrays and the S array are arrays.
- Hashmaps: keys are values compared for equality, the secondary mixing of the hash is a parameter, and the bucket is the remainder of the hash by the bucket count, which is what masking gives for a power of two; allocation succeeds.
- StrParms: typed getters and setters, deletion and dumping; a string has no embedded terminator.
- MemStreams: `funopen` and the stdio buffering in front of it; offsets beyond `size_t`.
- Arc4: the block cipher walk over scatterlists; input and output are separate.
- Qsort: the element size and the ways of swapping bytes, words or longs are one swap of elements; indices are taken without overflow.
- Boot loader code other than `qsort`, and the other files of libcutils.
