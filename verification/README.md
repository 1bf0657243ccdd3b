# Header ranges, workers and proofs of the Lumina light node, modelled in Dafny

Lumina's light node keeps a store of block headers and runs three workers on it. The syncer fetches
missing headers, the sampler ("Daser") samples their data, the pruner removes old ones. All three
reason about heights through one interval set, `BlockRanges`. This project models that interval set,
the workers, the in-memory store and the way the workers interleave, and two smaller pieces: the peer
tracker and the verifier of nested membership proofs.

## How the model is organised

| file | module | models |
|---|---|---|
| `BlockRange.dfy` | `BlockRangeExt` | one inclusive range of `u64` heights |
| `RangeLists.dfy` | `RangeLists` | lists of ranges: splicing, uniqueness, draining |
| `BlockRanges.dfy` | `BlockRangeSets` | the mutable interval set, proved against `set<u64>` |
| `Syncer.dfy` | `SyncerFetch` | which headers to fetch next, and why that converges |
| `PrunerWindow.dfy` | `PrunerWindow` | the search for the end of a time window and its cache |
| `PrunerBatch.dfy` | `PrunerBatch` | which blocks to prune next |
| `Store.dfy` | `StoreModel` | what the store does to stored, sampled and pruned heights |
| `Daser.dfy` | `DaserModel` | the sampler's state and its handlers |
| `NodeProtocol.dfy` | `NodeProtocol` | the interleaved machine: every `await` is a scheduling point |
| `NodeSafety.dfy`, `NodeSamples.dfy`, `NodeBatch.dfy`, `NodeCoverage.dfy` | same names | what each step of the machine keeps |
| `NodeProgress.dfy` | `NodeProgress` | which steps are possible |
| `NodeTheorems.dfy` | `NodeTheorems` | the properties of every run |
| `PeerTracker.dfy` | `PeerTracking` | peers, published statistics, protection counters |
| `ProofChain.dfy` | `AbciProofs` | membership through nested Merkle trees |

`u64` is a subset type, so every `+ 1`, `- 1` and sum that the source computes is proved to stay in
range, or its saturation is written out. `Heights(ranges)` is the set that a list of ranges stands for.
`Sorted` lists are valid, ascending and disjoint; `Canonical` lists do not touch either. `FromVec`
accepts touching ranges, so operations that the source may call on such a list ask for `Sorted` only.

The class methods of the sampler and the store are proved against step predicates and functions
(`AnswersWantToPrune`, `UpdatesQueue`, `Pops`, `Inserted`, `Removed`, ...). The interleaved machine takes
its steps from the same definitions. A worker that stops or is cancelled takes no further step, so such
runs are among the runs of the machine.

## Where the code differs from what one expects

- `tailn` on one range loses height `u64::MAX` because its addition saturates. `TailNIsExact` says exactly
  when, and `TailNLosesMax` gives inputs. `BlockRanges.TailN` inherits this, and the source panics when `u64::MAX` alone is left to be taken;
  the model returns an error there and states exactly when. `SyncUntilDone` shows the consequence for
  syncing up to head `u64::MAX`.
- The slow search asks for headers older than the cutoff, the fast path accepts a header on the cutoff.
  `SearchEqualsSlow`: the cached search agrees with binary search if and only if the fast path gives no
  answer or no stored header sits on the cutoff. `FastAndSlowDiffer` is an input on which they disagree.
- The proof-chain verifier looks up the next proof under the key of the proof below it.
  `NestedIsAcceptedIffLookupsAgree` says exactly when this turns down a valid chain, and
  `TurnedDownThoughNested` is such a chain.
- With no keys and a non-empty chain the verifier computes `0 - 1` for its error message. The model wraps,
  as a release build does; the verdict does not depend on it.

## Model

| member | source | states |
|---|---|---|
| BlockRangeExt.BlockRange.Len | node/src/block_ranges.rs:74-79 | the number of heights in the range, without overflow for every range but `0..=u64::MAX` |
| BlockRangeExt.BlockRange.IsAdjacent | node/src/block_ranges.rs:81-102 | two valid ranges are adjacent exactly when one ends right before the other starts, also at both ends of `u64` |
| BlockRangeExt.BlockRange.IsOverlapping | node/src/block_ranges.rs:104-141 | the four cases of the source together hold exactly when some height is shared |
| BlockRangeExt.HeadNKeepsHighest | node/src/block_ranges.rs:158-171 | `headn` keeps exactly the heights with fewer than `limit` heights above them |
| BlockRangeExt.TailNKeepsLowest | node/src/block_ranges.rs:174-186 | `tailn` keeps exactly the heights with fewer than `limit` heights below them, except `u64::MAX` |
| BlockRangeExt.TailNIsExact | node/src/block_ranges.rs:174-186 | `tailn` is exact if and only if the limit stops it before `u64::MAX` |
| BlockRangeExt.TailNLosesMax | node/src/block_ranges.rs:174-186 | two ranges that end at `u64::MAX` and lose it |
| RangeLists.CanonicalUnique | node/src/block_ranges.rs:189-192 | canonical lists that stand for the same set are the same list |
| RangeLists.MergeIsUnion | node/src/block_ranges.rs:444-452 | replacing the affected ranges by one merged range is set union |
| RangeLists.PlaceIsUnion | node/src/block_ranges.rs:453-463 | placing a range that affects no other is set union |
| RangeLists.RemoveIsDifference | node/src/block_ranges.rs:472-506 | replacing the affected ranges by what they keep on either side is set difference |
| RangeLists.SizeIsCardinality | node/src/block_ranges.rs:241-243 | the sum of the range lengths is the number of heights |
| RangeLists.DrainInOrder | node/src/block_ranges.rs:788-800 | any mix of `next` and `next_back` yields each height once, from the front ascending and from the back descending, and what is left lies between |
| BlockRangeSets.BlockRanges.FromVec | node/src/block_ranges.rs:214-228 | accepts a vector exactly when it is valid, ascending and disjoint; touching ranges pass |
| BlockRangeSets.BlockRanges.Contains | node/src/block_ranges.rs:236-238 | membership in the set |
| BlockRangeSets.BlockRanges.Len | node/src/block_ranges.rs:241-243 | the cardinality of the set, without overflow in the running sum |
| BlockRangeSets.BlockRanges.Head | node/src/block_ranges.rs:251-253 | the greatest member |
| BlockRangeSets.BlockRanges.Tail | node/src/block_ranges.rs:279-281 | the least member |
| BlockRangeSets.BlockRanges.HeadN | node/src/block_ranges.rs:255-276 | exactly the highest `min(limit, len)` members |
| BlockRangeSets.BlockRanges.TailN | node/src/block_ranges.rs:284-305 | the lowest members of the set without `u64::MAX`; fails if and only if `u64::MAX` is a range of its own and the limit is not reached before it |
| BlockRangeSets.TailNIsBottom | node/src/block_ranges.rs:284-305 | that result is the lowest `min(limit, len)` members if and only if `u64::MAX` is no member or the limit is below the size |
| BlockRangeSets.TailNOfMaxFails | node/src/block_ranges.rs:284-305 | the set with the one height `u64::MAX` makes `tailn` fail |
| BlockRangeSets.BlockRanges.FindAffectedRanges | node/src/block_ranges.rs:308-329 | the first and last of the ranges that overlap or touch the given one; they are contiguous, and `None` means there are none |
| BlockRangeSets.BlockRanges.CheckInsertionConstraints | node/src/block_ranges.rs:352-407 | succeeds exactly for a valid range, disjoint from the set, that is above the head or touches a member; the flags are membership of both neighbours; which error says why not, and the reported overlap covers every shared height |
| BlockRangeSets.AffectedOverlap | node/src/block_ranges.rs:373-406 | disjoint from the set exactly when all affected ranges are adjacent, and never with more than two of them |
| BlockRangeSets.OverlapCovers | node/src/block_ranges.rs:816-824 | the overlap hint lies in the range and covers every shared height |
| BlockRangeSets.BlockRanges.InsertRelaxed | node/src/block_ranges.rs:440-467 | set union, in place; order and non-touching are kept; an invalid range is refused and changes nothing |
| BlockRangeSets.BlockRanges.RemoveRelaxed | node/src/block_ranges.rs:472-506 | set difference, in place; order and non-touching are kept; an invalid range is refused and changes nothing |
| BlockRangeSets.BlockRanges.PopHead | node/src/block_ranges.rs:410-421 | removes and returns the greatest member |
| BlockRangeSets.BlockRanges.PopTail | node/src/block_ranges.rs:424-435 | removes and returns the least member |
| BlockRangeSets.BlockRanges.Edges | node/src/block_ranges.rs:508-524 | on a canonical list exactly the members with a missing neighbour; on any sorted list at least those |
| BlockRangeSets.EndsAreEdges | node/src/block_ranges.rs:508-524 | on a canonical list the ends of the ranges are exactly the members with a missing neighbour |
| BlockRangeSets.BlockRanges.Partitions | node/src/block_ranges.rs:527-580 | `None` exactly on the empty set; otherwise left < middle < right cover the set and the two halves differ by at most one height; no overflow, and the final pop never fails |
| BlockRangeSets.BlockRanges.LeftOf | node/src/block_ranges.rs:583-593 | the greatest member below the height |
| BlockRangeSets.BlockRanges.RightOf | node/src/block_ranges.rs:596-606 | the least member above the height |
| BlockRangeSets.BlockRanges.AddAssign | node/src/block_ranges.rs:647-654 | set union |
| BlockRangeSets.BlockRanges.SubAssign | node/src/block_ranges.rs:680-687 | set difference |
| BlockRangeSets.BlockRanges.Not | node/src/block_ranges.rs:707-725 | the complement in `1..=u64::MAX` |
| BlockRangeSets.BlockRanges.BitAndAssign | node/src/block_ranges.rs:763-768 | computed with De Morgan's law, exactly the intersection |
| BlockRangeSets.ComplementTwice | node/src/block_ranges.rs:707-725 | `!!A` is the same list as `A` for canonical `A` |
| BlockRangeSets.RemoveThenInsert | node/src/block_ranges.rs:440-506 | taking members out and putting them back restores the same list |
| SyncerFetch.BatchIsInsertable | node/src/syncer.rs:649-673 | the next batch is disjoint from what is synced, at most `limit` long, and passes the insertion rule when not empty |
| SyncerFetch.BatchIsNext | node/src/syncer.rs:649-673 | which heights the batch asks for, one by one: above the synced head the lowest missing ones, otherwise the highest of the gap below the top range |
| SyncerFetch.RequestReducesDemand | node/src/syncer.rs:649-673 | below head `u64::MAX`, inserting a non-empty next batch lowers the number of requests still needed by exactly one |
| SyncerFetch.NothingToFetch | node/src/syncer.rs:649-673 | below head `u64::MAX`, an empty next batch means that no request is needed and that every height from 1 to the target is present |
| SyncerFetch.RoundsIsCeiling | node/src/syncer.rs:649-673 | the requests that one gap needs are its length divided by the limit, rounded up |
| SyncerFetch.SyncUntilDone | node/src/syncer.rs:471-561 | from any canonical set, fetching and inserting ends after exactly the sum over gaps of the rounded-up quotients; everything up to the target is present if and only if the head is below `u64::MAX` or `u64::MAX` was present already |
| PrunerWindow.Cache.GarbageCollect | node/src/pruner.rs:155-161 | keeps exactly the two bounds and the heights marked to be kept |
| PrunerWindow.Cache.GetBlockInfo | node/src/pruner.rs:163-179 | answers with the header's time; fails exactly for a height that is neither cached nor stored |
| PrunerWindow.Cache.UpdateCachedData | node/src/pruner.rs:270-344 | less than `updateAfter` after the last refresh nothing changes; otherwise, unless a header is missing, each bound becomes the larger of itself and the end of the window found from it, so that none goes back and each covers every stored header older than its cutoff and none newer; a moved pruning bound is reported; a failure changes no bound |
| PrunerWindow.Cache.KeepNeighbours | node/src/pruner.rs:318-340 | keeps at most three stored heights: the lowest, and the next one above each bound |
| PrunerWindow.Cache.FindHeightAfterWindow | node/src/pruner.rs:456-475 | the fast path's answer exactly when the fast path decides, and binary search's answer otherwise |
| PrunerWindow.Cache.FindHeightAfterWindowFast | node/src/pruner.rs:484-551 | gives a definite answer if and only if, without a previous bound, everything stored is newer than the cutoff, or at most one stored block above the bound is not newer; the answer is then the greatest stored height not newer than the cutoff |
| PrunerWindow.Cache.FindHeightAfterWindowSlow | node/src/pruner.rs:554-584 | the greatest stored height older than the cutoff, over any gapped set, within `Depth(n)` probes |
| PrunerWindow.DepthIsLogarithm | node/src/pruner.rs:554-584 | `Depth(n)` is one more than the whole part of the binary logarithm of `n` |
| PrunerWindow.SearchEqualsSlow | node/src/pruner.rs:456-475 | the cached search equals binary search if and only if the fast path gives no answer or no stored header sits on the cutoff |
| PrunerWindow.FastAndSlowDiffer | node/src/pruner.rs:484-584 | both searches on one input with a header on the cutoff: the fast path answers 2, binary search 1 |
| PrunerWindow.BoundsOverRuns | node/src/pruner.rs:270-344 | in every run of searches and updates with cutoffs that do not go back, bounds do not go back and never cover a header newer than the cutoff |
| PrunerWindow.BoundBeforeIsGood | node/src/pruner.rs:280-316 | in every run each search starts from a bound that is not newer than its cutoff, as the fast path needs |
| PrunerWindow.RefreshAll | node/src/pruner.rs:208-220 | the cache driven through any sequence of looks: both bounds make such a run, every search meets its precondition, a look refreshes if and only if it does not fail and no look less than `updateAfter` before it did, and none fails whose stored headers can be read |
| PrunerWindow.RefreshIsExact | node/src/pruner.rs:305-316 | right after a refresh in any run, a stored height is up to the bound if and only if its header is older than the cutoff, or on the cutoff and either the fast path decided or the bound was there before |
| PrunerBatch.SplitCandidates | node/src/pruner.rs:402-425 | the two kinds of candidates: outside both windows; or inside the sampling window, sampled, and not an edge of what is synced |
| PrunerBatch.FillBatch | node/src/pruner.rs:437-450 | the batch is filled from the top with candidates that are sampled or that the sampler lets go; it asks about no others and adds all it is allowed until the batch is full |
| PrunerBatch.Worker.PickBatch | node/src/pruner.rs:402-452 | the batch, and the number of prunable blocks as the size of a set of blocks, without overflow |
| PrunerBatch.Worker.GetNextPrunableBatch | node/src/pruner.rs:347-453 | refreshes the bounds when that is due, then gives the batch and reports the number of prunable blocks and the pruning bound exactly when they changed; succeeds whenever every stored header can be read |
| PrunerBatch.BatchBlocksMayGo | node/src/pruner.rs:347-453 | at most 512 blocks; each is stored and outside the pruning window, and either outside the sampling window and sampled or let go by the sampler, or sampled and not an edge |
| PrunerBatch.BatchIsComplete | node/src/pruner.rs:417-452 | every stored block outside the pruning window that may go is in the batch, or the batch has 512 blocks and those of its kind are higher; outside both windows the sampler was asked about every block that is not sampled |
| PrunerBatch.PrunableCount | node/src/pruner.rs:427 | the number of prunable blocks is the number of stored blocks outside the pruning window that are outside the sampling window, or sampled and no edge; it fits in `u64` |
| StoreModel.InMemoryStore.Insert | node/src/store/in_memory_store.rs:187-231 | nothing for no headers; otherwise succeeds exactly when the insertion rule allows the range, its ends verify against the stored neighbours and no hash is known; then the heights are stored, not sampled and not pruned; otherwise nothing changes, and the error says which of the three failed |
| StoreModel.InMemoryStore.UpdateSamplingMetadata | node/src/store/in_memory_store.rs:270-291 | appends the new CIDs to those already listed; fails exactly for a height that is not stored |
| StoreModel.InMemoryStore.MarkAsSampled | node/src/store/in_memory_store.rs:305-315 | the height is sampled; fails exactly for a height that is not stored |
| StoreModel.InMemoryStore.RemoveHeight | node/src/store/in_memory_store.rs:317-352 | the height moves from stored to pruned and loses its samples; fails exactly for a height that is not stored |
| DaserModel.Worker.OnWantToPrune | node/src/daser.rs:410-426 | yes exactly for a height that is not being sampled; then it leaves the queue and is remembered as given away |
| DaserModel.Worker.UpdateQueue | node/src/daser.rs:571-579 | the queue becomes stored minus sampled, timed out, ongoing and given away; the head is the highest stored height |
| DaserModel.Worker.PopNext | node/src/daser.rs:428-455 | takes the highest queued height exactly when no backlog of 512 prunable blocks reaches up to it and fewer samplings run than allowed, where only the head may use the additional ones; otherwise the queue is the same list as before |
| DaserModel.PopRule | node/src/daser.rs:435-455 | the same rule for every step that takes a height from the queue |
| DaserModel.Worker.GiveUpBelow | node/src/daser.rs:471-482 | nothing at or below the height is queued, all of it is timed out |
| DaserModel.Worker.StartSampling | node/src/daser.rs:562-565 | one more running sampling, listed as ongoing |
| DaserModel.Worker.MarkTimedOut | node/src/daser.rs:359-365 | the height is timed out and no longer ongoing |
| DaserModel.Worker.Finish | node/src/daser.rs:361-365 | the height is no longer ongoing |
| DaserModel.Worker.Disconnect | node/src/daser.rs:374-378 | everything is forgotten but what was given away and what the pruner reported |
| NodeSafety.DaserKeepsSamplerInv | node/src/daser.rs:310-426 | every step of the sampler keeps: the queue holds nothing sampled, ongoing, timed out or given away; nothing given away is ongoing; one future per ongoing height; what is being sampled is stored and not marked as sampled |
| NodeSafety.DaserKeepsPrunerInv | node/src/daser.rs:410-426 | no step of the sampler takes back what the pruner relies on |
| NodeSafety.PrunerKeepsSamplerInv | node/src/pruner.rs:231-255 | no step of the pruner takes away what the sampler relies on |
| NodeSafety.PrunerKeepsPrunerInv | node/src/pruner.rs:347-453 | whatever the pruner is about to remove is stored, and sampled or given away |
| NodeSafety.SyncerKeepsHandshake | node/src/syncer.rs:565-639 | inserting headers disturbs neither |
| NodeSafety.DaserKeepsEdgeInv | node/src/daser.rs:310-381 | the sampler makes and removes no edges |
| NodeSafety.PrunerKeepsEdgeInv | node/src/pruner.rs:395-450 | the pruner removes no edge above its sampling bound, although other workers ran since it read the store |
| NodeSafety.SyncerKeepsEdgeInv | node/src/syncer.rs:565-639 | insertion makes no edge of a height that is synced but no longer stored |
| NodeSamples.DaserKeepsSampleInv | node/src/daser.rs:487-493 | CIDs are listed before any sample arrives |
| NodeSamples.PrunerKeepsSampleInv | node/src/pruner.rs:242-253 | samples are deleted before the header that lists them |
| NodeSamples.SyncerKeepsSampleInv | node/src/syncer.rs:565-639 | insertion leaves the listed samples alone |
| NodeBatch.PrunerKeepsBatchInv | node/src/pruner.rs:437-450 | while the pruner asks and other workers run, its batch stays what its loop computes for the answers so far |
| NodeCoverage.StepCovers | node/src/daser.rs:310-579 | no step of any component makes the sampler lose track of a stored height |
| NodeProgress.SamplerGoesOn | node/src/daser.rs:428-579 | wherever the sampler is, it can take a step unless it waits in `select!` |
| NodeProgress.SamplerTakesEvents | node/src/daser.rs:342-371 | a waiting sampler can take every event: peers that come and go, a new head, a command, a report |
| NodeProgress.SamplingMayEnd | node/src/daser.rs:354-366 | every running sampling can end, timed out or not |
| NodeProgress.PrunerGoesOn | node/src/pruner.rs:208-268 | wherever the pruner is, it can take a step unless it waits for an answer or has stopped |
| NodeProgress.SamplerAnswers | node/src/daser.rs:410-426 | a waiting sampler can answer, yes exactly for a height it does not sample |
| NodeProgress.SyncerGoesOn | node/src/syncer.rs:438-639 | wherever the syncer is, it can go on: read, fetch exactly the batch it calculated, insert what verified and fits |
| NodeTheorems.SyncerKeepsFetchInv | node/src/syncer.rs:438-561 | the batch under way stays next to what is synced, although the pruner ran between the two reads and header-sub inserts meanwhile |
| NodeTheorems.DaserKeepsCountInv | node/src/daser.rs:435-455 | no step starts more samplings than configured |
| NodeTheorems.Reachable | node/src/daser.rs:310-579 | all of the above hold in every state of every run |
| NodeTheorems.NeverPrunesLiveSampling | node/src/pruner.rs:231-255 | in every run a removed header is not being sampled, not about to be, not queued, and is sampled or was given away |
| NodeTheorems.LetGoForever | node/src/daser.rs:410-426 | in every run a height that was given away is never queued, taken, ongoing or sampled again, disconnects included |
| NodeTheorems.PermittedIsNeverSampled | node/src/pruner.rs:437-450 | in every run, after a yes to `WantToPrune` the height is never sampled again |
| NodeTheorems.BatchOverRuns | node/src/pruner.rs:437-452 | in every run the batch about to be removed is exactly the one that `IsBatch` describes for the answers the sampler gave, and every granted height was given away |
| NodeTheorems.BatchBlocksOverRuns | node/src/pruner.rs:347-453 | in every run a batch has at most 512 blocks, all stored when it was chosen; above the sampling bound each was sampled and no edge of what was synced, below it each was sampled or given away |
| NodeTheorems.BatchTakesAll | node/src/pruner.rs:417-452 | in every run, when removal starts, each block that was stored outside the pruning window and may go is in the batch or the batch is full, and outside both windows the sampler was asked about every other one |
| NodeTheorems.StoreNeverMisses | node/src/daser.rs:487-493 | in every run neither the sampler nor the pruner ever fails because a header it relies on is gone |
| NodeTheorems.SyncedOnlyGrows | node/src/store.rs:62-164 | in every run what was synced once stays stored or remembered as pruned |
| NodeTheorems.StoredIsNotPruned | node/src/store/in_memory_store.rs:220-228 | in every run no height is both stored and remembered as pruned |
| NodeTheorems.NothingIsForgotten | node/src/daser.rs:428-579 | in every run a height that the sampler read as stored and that stays stored is queued, taken, ongoing, sampled, timed out or given away, until all peers are gone |
| NodeTheorems.EverythingIsHandled | node/src/daser.rs:333-372 | in every run, while the sampler waits, such a height is queued, being sampled, sampled, timed out or given away |
| NodeTheorems.StartsWithinLimits | node/src/daser.rs:435-455 | in every run a sampling beyond the configured limit starts only for the head, never beyond the additional limit, and none starts for a height that a backlog of 512 prunable blocks reaches |
| NodeTheorems.NoDeadlock | node/src/daser.rs:342-371 | in every run the sampler and the pruner can always go on unless they wait, and never wait for each other |
| NodeTheorems.NoSampleLeaks | node/src/store.rs:121-125 | in every run each sample in the blockstore is listed in the metadata of a stored header |
| NodeTheorems.EdgesStayStored | node/src/pruner.rs:395-450 | in every run each edge of stored and pruned heights above the sampling bound is still stored |
| NodeTheorems.FetchedBatchFits | node/src/syncer.rs:497-508 | in every run a batch that fills a gap can be inserted whenever its upper neighbour is above the sampling bound; one that extends the head can be inserted unless its first header is synced already |
| NodeTheorems.SamplerStaysConsistent | node/src/daser.rs:428-579 | in every run the futures are exactly the ongoing heights between commands, there are never more than configured, and the queue is disjoint from ongoing, timed out and given away |
| PeerTracking.PeerTracker.RecountPeerTrackerInfo | node/src/peer_tracker.rs:359-388 | publishes how many peers are connected, and how many of those are trusted, of kind full or bridge, archival |
| PeerTracking.PeerTracker.AddPeerId | node/src/peer_tracker.rs:193-201 | adds an unknown peer; statistics and counters stay right without a recount |
| PeerTracking.PeerTracker.SetTrusted | node/src/peer_tracker.rs:204-212 | sets the flag, adding the peer if needed |
| PeerTracking.PeerTracker.Protect | node/src/peer_tracker.rs:219-232 | adds the tag once; true exactly when the peer was unprotected; the counter of each tag is the number of its holders |
| PeerTracking.PeerTracker.Unprotect | node/src/peer_tracker.rs:239-257 | removes the tag; true exactly when it was the last one; the counter is there and positive, so the `expect` never fails |
| PeerTracking.PeerTracker.ProtectedLen | node/src/peer_tracker.rs:259-261 | the number of peers that hold the tag |
| PeerTracking.PeerTracker.AddConnection | node/src/peer_tracker.rs:264-285 | a second connection needs no recount |
| PeerTracking.PeerTracker.RemoveConnection | node/src/peer_tracker.rs:288-308 | the last connection takes node kind and archival flag with it; any other needs no recount |
| PeerTracking.PeerTracker.OnAgentVersion | node/src/peer_tracker.rs:310-317 | only a connected peer gets a node kind, the one its agent string announces |
| PeerTracking.AgentKinds | node/src/peer_tracker.rs:72-85 | which kind an agent announces, from the parts of its string: full, bridge or light from the third part of a `celestia-node`, light for `lumina`, unknown otherwise |
| PeerTracking.AgentCountsAsFull | node/src/peer_tracker.rs:310-317 | after a connected peer announced itself it is counted as a full node exactly when it is a `celestia-node` whose third part is `full` or `bridge`; all others count as before |
| PeerTracking.StatisticsCount | node/src/peer_tracker.rs:359-388 | what each published statistic counts, as the size of a set of peers |
| PeerTracking.SplitJoin | node/src/peer_tracker.rs:73 | splitting undoes joining for parts without separators |
| PeerTracking.JoinSplit | node/src/peer_tracker.rs:73 | joining the parts gives the string back |
| PeerTracking.PeerTracker.OnPingEvent | node/src/peer_tracker.rs:319-325 | pings never change the statistics |
| PeerTracking.PeerTracker.MarkAsArchival | node/src/peer_tracker.rs:327-335 | sets the flag, adding the peer if needed |
| PeerTracking.PeerTracker.Gc | node/src/peer_tracker.rs:390-403 | drops exactly the unconnected, unprotected peers that disconnected more than 120 seconds ago; statistics and counters stay right without a recount |
| PeerTracking.SameStatistics | node/src/peer_tracker.rs:359-388 | replacing a peer by one that counts the same leaves every statistic as it was |
| PeerTracking.GainTag | node/src/peer_tracker.rs:226-229 | gaining a tag is one more holder of that tag and of no other |
| PeerTracking.LoseTag | node/src/peer_tracker.rs:246-253 | losing a tag is one holder less of that tag and of no other, and the counter was positive |
| AbciProofs.FindEntry | grpc/src/abci_proofs.rs:78-86 | the first entry for the key if the batch has one; `None` means it has none |
| AbciProofs.WhereProofsAre | grpc/src/abci_proofs.rs:74-90 | an existence proof is found in a batch exactly if some entry has the key, and then it is the first such entry; a single proof is found under any key; nothing else gives one |
| AbciProofs.VerifyMembership | grpc/src/abci_proofs.rs:124-197 | succeeds exactly when keys and proofs have the same length and every link has the right key, an existence proof and a verified step; each error names the first fault, and an uneven length which lengths |
| AbciProofs.AcceptedIsNested | grpc/src/abci_proofs.rs:124-197 | success gives a chain of values from the leaf to the root, each step accepted for its own key |
| AbciProofs.AgreeingIsExact | grpc/src/abci_proofs.rs:97-123 | when lookups agree, success is exactly nested membership |
| AbciProofs.PlainChainsAreExact | grpc/src/abci_proofs.rs:97-123 | for plain existence proofs success is exactly nested membership |
| AbciProofs.OneBatchIsExact | grpc/src/abci_proofs.rs:74-90 | a chain of one batch is accepted if and only if the keys match, some entry has the key and single-tree verification says yes |
| AbciProofs.NestedIsAcceptedIffLookupsAgree | grpc/src/abci_proofs.rs:152-158 | nested membership is accepted if and only if looking up each upper proof under the key below finds the value it holds for its own key |
| AbciProofs.BatchAboveIsTurnedDown | grpc/src/abci_proofs.rs:152-158 | whatever single-tree verification says, a chain with a batch above the first tree that does not mention the key below is turned down |
| AbciProofs.TurnedDownThoughNested | grpc/src/abci_proofs.rs:152-158 | a chain with a batch proof in the upper tree that is valid and turned down |

## Left out

- Header contents, hashes and signatures: whether headers verify against their neighbours is a parameter.
- StoreModel.InMemoryStore.Insert: the tables from hash to header and from height to hash are not modelled; when a known hash turns up in the middle of a batch, the source has filled them for the headers before it.
- Single-tree verification of ICS 23 is a parameter of the proof-chain model. Decoding of proof operations is not part of this model.
- The parts of a batch request that depend on the network: a fetched batch is the range that was asked for.
- The syncer's throttling by `highest_slow_sync_height` and its check of the sampling window only skip a fetch. The machine allows skipping at any time.
- Progress of the syncer when the upper neighbour of a gap was pruned outside the sampling window: such a batch may be refused for good.
- `HeaderSubReads`: a stored head of `u64::MAX` has no next header, so the overflow of the source's `+ 1` there is not modelled.
- Clocks, sampling timeouts and the random choice of shares are inputs. Times are integers, strictly increasing with height, and cutoffs never go back.
- PrunerBatch.Worker.GetNextPrunableBatch: asks the sampler through a function. The real exchange of messages, with other steps in between, is in `NodeProtocol`.
- Events, logging, back-off, reports, and which error ends a worker.
- The redb and IndexedDB stores, header look-up by hash, `get_range`, `to_headers_range`.
- Best pings and the listing of connections in the peer tracker.
- AbciProofs.TurnedDownThoughNested: uses a stand-in for hashing, because ICS 23 verification is a parameter; `BatchAboveIsTurnedDown` holds for any.
- Networking, clients, transaction submission, wasm and uniffi bindings, the command line and generated protobuf code.
